/**
 The lease of one workspace key as an interleaved step machine.

 Every goroutine that acquires the key is a caller with its own program counter; a step executes one
 statement that touches shared state. Leases is the heap of lease objects ever allocated for the key, in
 order of allocation: when the map entry is deleted and the key is used again, a new generation is appended.
 */
module LeaseMachine {
  import opened Base

  datatype CallerId = CallerId(number: nat)

  datatype PC =
    | Waiting         // in the select on the context and the gate
    | Entered         // has taken the gate, is about to look at the context
    | Checked         // the context was live, is about to look at active
    | Ensuring        // EnsureWorkspace in flight
    | SetupFailed     // EnsureWorkspace has returned an error
    | SetupCleanup    // DeletePod in flight after a failed setup
    | Joining         // is about to count itself in active
    | Publishing      // is about to give the gate back and return the release function
    | Holding         // acquire has returned the release function
    | ReleaseWaiting  // release has started and waits for the gate
    | Releasing       // release has the gate, is about to decrement active
    | Released        // has decremented active, is about to look at it
    | Cleaning        // DeletePod in flight for the last holder
    | Returning       // is about to give the gate back and leave
    | Dropping        // is about to drop its use of the lease
    | Gone            // has dropped

  /** gate is a channel of capacity one; tokens is how many tokens it holds. */
  datatype Lease = Lease(tokens: nat, users: int, active: int)

  /** fired is the sync.Once of the release function. */
  datatype Caller = Caller(lease: nat, pc: PC, cancelled: bool, fired: bool)

  datatype Event = EnsureBegin | EnsureEnd(ok: bool) | DeleteBegin | DeleteEnd(ok: bool)

  datatype State = State(entry: Option<nat>, leases: seq<Lease>, callers: map<CallerId, Caller>, log: seq<Event>)

  datatype Action =
    | Start | Cancel | LeaveQueue | TakeGate | CheckContext | Decide | FinishEnsure(ok: bool)
    | BeginCleanup | FinishDelete(ok: bool) | Join | Publish
    | CallRelease | TakeGateAgain | Decrement | AfterDecrement | PutBack | Drop

  const INIT := State(None, [], map[], [])

  const FRESH := Lease(1, 0, 0)

  predicate WellFormed(s: State) {
    && (s.entry.Some? ==> s.entry.value < |s.leases|)
    && (forall c <- s.callers :: s.callers[c].lease < |s.leases|)
  }

  /** When the statement of action a can run, for a caller that already exists. */
  predicate Ready(me: Caller, l: Lease, a: Action) {
    match a
    case Start => false
    case Cancel => !me.cancelled
    case LeaveQueue => me.pc.Waiting? && me.cancelled
    case TakeGate => me.pc.Waiting? && l.tokens > 0
    case CheckContext => me.pc.Entered?
    case Decide => me.pc.Checked?
    case FinishEnsure(_) => me.pc.Ensuring?
    case BeginCleanup => me.pc.SetupFailed?
    case FinishDelete(_) => me.pc.SetupCleanup? || me.pc.Cleaning?
    case Join => me.pc.Joining?
    case Publish => me.pc.Publishing? && l.tokens < 1
    case CallRelease => me.pc.Holding? || (me.pc.Gone? && me.fired)
    case TakeGateAgain => me.pc.ReleaseWaiting? && l.tokens > 0
    case Decrement => me.pc.Releasing?
    case AfterDecrement => me.pc.Released?
    case PutBack => me.pc.Returning? && l.tokens < 1
    case Drop => me.pc.Dropping?
  }

  function CallerAfter(me: Caller, l: Lease, a: Action): Caller {
    match a
    case Start => me
    case Cancel => me.(cancelled := true)
    case LeaveQueue => me.(pc := Dropping)
    case TakeGate => me.(pc := Entered)
    case CheckContext => me.(pc := if me.cancelled then Returning else Checked)
    case Decide => me.(pc := if l.active == 0 then Ensuring else Joining)
    case FinishEnsure(ok) => me.(pc := if ok then Joining else SetupFailed)
    case BeginCleanup => me.(pc := SetupCleanup)
    case FinishDelete(_) => me.(pc := Returning)
    case Join => me.(pc := Publishing)
    case Publish => me.(pc := Holding)
    case CallRelease => if me.fired then me else me.(pc := ReleaseWaiting, fired := true)
    case TakeGateAgain => me.(pc := Releasing)
    case Decrement => me.(pc := Released)
    case AfterDecrement => me.(pc := if l.active == 0 then Cleaning else Returning)
    case PutBack => me.(pc := Dropping)
    case Drop => me.(pc := Gone)
  }

  function LeaseAfter(l: Lease, a: Action): Lease
    requires a.TakeGate? || a.TakeGateAgain? ==> l.tokens > 0
  {
    match a
    case Start => l.(users := l.users + 1)
    case TakeGate => l.(tokens := l.tokens - 1)
    case TakeGateAgain => l.(tokens := l.tokens - 1)
    case Publish => l.(tokens := l.tokens + 1)
    case PutBack => l.(tokens := l.tokens + 1)
    case Join => l.(active := l.active + 1)
    case Decrement => l.(active := l.active - 1)
    case Drop => l.(users := l.users - 1)
    case _ => l
  }

  /** The lifecycle calls that begin or end at the step. */
  function Logged(l: Lease, a: Action): seq<Event> {
    match a
    case Decide => if l.active == 0 then [EnsureBegin] else []
    case FinishEnsure(ok) => [EnsureEnd(ok)]
    case BeginCleanup => [DeleteBegin]
    case FinishDelete(ok) => [DeleteEnd(ok)]
    case AfterDecrement => if l.active == 0 then [DeleteBegin] else []
    case _ => []
  }

  predicate Enabled(s: State, c: CallerId, a: Action)
    requires WellFormed(s)
  {
    if a.Start? then c !in s.callers
    else c in s.callers && Ready(s.callers[c], s.leases[s.callers[c].lease], a)
  }

  /** Caller c becomes v and the lease it refers to becomes l. */
  function Put(s: State, c: CallerId, v: Caller, l: Lease): State
    requires v.lease < |s.leases|
  {
    s.(callers := s.callers[c := v], leases := s.leases[v.lease := l])
  }

  /** Under mu: look the key up, install a fresh lease if there is none, and count one more user. */
  function Entering(s: State): State {
    if s.entry.Some? then s else s.(entry := Some(|s.leases|), leases := s.leases + [FRESH])
  }

  function Apply(s: State, c: CallerId, a: Action): (r: State)
    requires WellFormed(s) && Enabled(s, c, a)
  {
    if a.Start? then
      var t := Entering(s);
      Put(t, c, Caller(t.entry.value, Waiting, false, false), LeaseAfter(t.leases[t.entry.value], a))
    else
      var me := s.callers[c];
      var l := s.leases[me.lease];
      var t := Put(s, c, CallerAfter(me, l, a), LeaseAfter(l, a)).(log := s.log + Logged(l, a));
      // The map entry is deleted by key, whatever lease it refers to.
      if a.Drop? && l.users - 1 == 0 then t.(entry := None) else t
  }

  /** A step moves one caller's program counter. */
  lemma ApplyMovesOneCaller(s: State, c: CallerId, a: Action)
    requires WellFormed(s) && Enabled(s, c, a)
    ensures c in Apply(s, c, a).callers
    ensures Apply(s, c, a).callers == s.callers[c := Apply(s, c, a).callers[c]]
    ensures !a.Start? ==> Apply(s, c, a).callers[c] == CallerAfter(s.callers[c], s.leases[s.callers[c].lease], a)
    ensures a.Start? ==> Apply(s, c, a).callers[c].pc.Waiting? && !Apply(s, c, a).callers[c].fired
  {
  }

  // ----- Roles -----

  datatype Role = User | Insider | Counted

  /** A user has not dropped; an insider has taken the gate and not given it back; a counted caller is in active. */
  predicate Plays(pc: PC, role: Role) {
    match role
    case User => !pc.Gone?
    case Insider =>
      pc.Entered? || pc.Checked? || pc.Ensuring? || pc.SetupFailed? || pc.SetupCleanup? || pc.Joining?
      || pc.Publishing? || pc.Releasing? || pc.Released? || pc.Cleaning? || pc.Returning?
    case Counted => pc.Publishing? || pc.Holding? || pc.ReleaseWaiting? || pc.Releasing?
  }

  /** The callers of lease object g that play the role. */
  function Players(callers: map<CallerId, Caller>, g: nat, role: Role): set<CallerId> {
    set c | c in callers && callers[c].lease == g && Plays(callers[c].pc, role)
  }

  // ----- The inductive invariant -----

  predicate Counts(s: State, g: nat)
    requires g < |s.leases|
  {
    var l := s.leases[g];
    && l.users == |Players(s.callers, g, User)|
    && l.tokens + |Players(s.callers, g, Insider)| == 1
    && l.active == |Players(s.callers, g, Counted)|
  }

  function Slot(e: Event): nat {
    match e
    case EnsureBegin => 0
    case EnsureEnd(_) => 1
    case DeleteBegin => 2
    case DeleteEnd(_) => 3
  }

  /** The log cycles through EnsureBegin, EnsureEnd, DeleteBegin, DeleteEnd. */
  predicate Alternates(log: seq<Event>) {
    forall i | 0 <= i < |log| :: Slot(log[i]) == i % 4
  }

  /** No lifecycle call is owed: the workspace is down, or up and held. */
  predicate Settled(active: int, log: seq<Event>) {
    if active == 0 then |log| % 4 == 0 else |log| % 4 == 2 && Last(log) == EnsureEnd(true)
  }

  /** What the log and the active count look like while a caller at pc is inside the gate. */
  predicate InsideLog(pc: PC, active: int, log: seq<Event>) {
    match pc
    case Ensuring => active == 0 && |log| % 4 == 1
    case SetupFailed => active == 0 && |log| % 4 == 2 && Last(log) == EnsureEnd(false)
    case SetupCleanup => active == 0 && |log| % 4 == 3 && log[|log| - 2] == EnsureEnd(false)
    case Joining => |log| % 4 == 2 && Last(log) == EnsureEnd(true)
    case Publishing => active > 0 && Settled(active, log)
    case Releasing => active > 0 && Settled(active, log)
    case Released => |log| % 4 == 2 && Last(log) == EnsureEnd(true)
    case Cleaning => active == 0 && |log| % 4 == 3 && log[|log| - 2] == EnsureEnd(true)
    case _ => Settled(active, log)
  }

  predicate LogFits(s: State)
    requires WellFormed(s)
  {
    && Alternates(s.log)
    && (s.entry.None? ==> |s.log| % 4 == 0)
    && (s.entry.Some? ==>
          var l := s.leases[s.entry.value];
          && (l.tokens > 0 ==> Settled(l.active, s.log))
          && (forall c <- s.callers :: Plays(s.callers[c].pc, Insider) ==> InsideLog(s.callers[c].pc, l.active, s.log)))
  }

  predicate AfterRelease(pc: PC) {
    pc.ReleaseWaiting? || pc.Releasing? || pc.Released? || pc.Cleaning? || pc.Returning? || pc.Dropping? || pc.Gone?
  }

  ghost predicate Invariant(s: State) {
    && WellFormed(s)
    && (forall g | 0 <= g < |s.leases| :: Counts(s, g))
    && (forall c <- s.callers :: Plays(s.callers[c].pc, User) ==> s.entry == Some(s.callers[c].lease))
    && (s.entry.Some? ==> s.leases[s.entry.value].users > 0)
    && (forall c <- s.callers :: s.callers[c].fired ==> AfterRelease(s.callers[c].pc))
    && LogFits(s)
  }

  // ----- Preservation -----

  function Bit(b: bool): int {
    if b then 1 else 0
  }

  /** One caller's move changes one lease's player sets by that caller alone. */
  lemma PlayersAfterMove(callers: map<CallerId, Caller>, c: CallerId, v: Caller, g: nat, role: Role)
    requires c in callers ==> callers[c].lease == v.lease
    ensures |Players(callers[c := v], g, role)|
         == |Players(callers, g, role)|
            + (if g == v.lease then Bit(Plays(v.pc, role)) - Bit(c in callers && Plays(callers[c].pc, role)) else 0)
  {
    var before, after := Players(callers, g, role), Players(callers[c := v], g, role);
    if g == v.lease && Plays(v.pc, role) {
      assert after == before + {c};
    } else {
      assert after == before - {c};
    }
  }

  /** The lease's numbers change exactly as the caller's roles do. */
  predicate Balanced(before: Lease, after: Lease, from: Option<PC>, to: PC) {
    var Change := (role: Role) => Bit(Plays(to, role)) - Bit(from.Some? && Plays(from.value, role));
    && after.users == before.users + Change(User)
    && after.tokens == before.tokens - Change(Insider)
    && after.active == before.active + Change(Counted)
  }

  lemma CountsAfterMove(s: State, c: CallerId, v: Caller, l: Lease)
    requires v.lease < |s.leases|
    requires c in s.callers ==> s.callers[c].lease == v.lease
    requires forall g | 0 <= g < |s.leases| :: Counts(s, g)
    requires Balanced(s.leases[v.lease], l, if c in s.callers then Some(s.callers[c].pc) else None, v.pc)
    ensures forall g | 0 <= g < |s.leases| :: Counts(Put(s, c, v, l), g)
  {
    forall g | 0 <= g < |s.leases| ensures Counts(Put(s, c, v, l), g) {
      assert Counts(s, g);
      PlayersAfterMove(s.callers, c, v, g, User);
      PlayersAfterMove(s.callers, c, v, g, Insider);
      PlayersAfterMove(s.callers, c, v, g, Counted);
    }
  }

  lemma TwoMembers<T>(s: set<T>, a: T, b: T)
    requires a in s && b in s && a != b
    ensures |s| >= 2
  {
    assert b in s - {a};
    assert |s| == |s - {a}| + 1;
  }

  /** The gate admits one caller at a time. */
  lemma InsiderIsAlone(s: State, c: CallerId)
    requires Invariant(s) && c in s.callers && Plays(s.callers[c].pc, Insider)
    ensures s.leases[s.callers[c].lease].tokens == 0
    ensures forall d <- s.callers :: Plays(s.callers[d].pc, Insider) ==> d == c
  {
    var g := s.callers[c].lease;
    assert Plays(s.callers[c].pc, User);
    assert Counts(s, g);
    var inside := Players(s.callers, g, Insider);
    assert c in inside;
    forall d <- s.callers | Plays(s.callers[d].pc, Insider) ensures d == c {
      assert Plays(s.callers[d].pc, User);
      assert d in inside;
      if d != c {
        TwoMembers(inside, c, d);
      }
    }
  }

  lemma CountedMeansActive(s: State, c: CallerId)
    requires Invariant(s) && c in s.callers && Plays(s.callers[c].pc, Counted)
    ensures s.leases[s.callers[c].lease].active > 0
  {
    var g := s.callers[c].lease;
    assert Counts(s, g);
    assert c in Players(s.callers, g, Counted);
  }

  lemma UnusedMeansIdle(s: State, g: nat)
    requires g < |s.leases| && Counts(s, g) && s.leases[g].users == 0
    ensures s.leases[g].active == 0 && s.leases[g].tokens == 1
    ensures forall c <- s.callers :: s.callers[c].lease == g ==> s.callers[c].pc.Gone?
  {
    assert Players(s.callers, g, User) == {};
    assert Players(s.callers, g, Insider) <= Players(s.callers, g, User);
    assert Players(s.callers, g, Counted) <= Players(s.callers, g, User);
    forall c <- s.callers | s.callers[c].lease == g ensures s.callers[c].pc.Gone? {
      assert c !in Players(s.callers, g, User);
    }
  }

  lemma InitIsInvariant()
    ensures Invariant(INIT)
  {
  }

  lemma StartKeepsInvariant(s: State, c: CallerId)
    requires Invariant(s) && Enabled(s, c, Start)
    ensures Invariant(Apply(s, c, Start))
  {
    var t := Apply(s, c, Start);
    var g := t.entry.value;
    var s0 := if s.entry.Some? then s else s.(leases := s.leases + [FRESH]);
    assert forall h | 0 <= h < |s0.leases| :: Counts(s0, h) by {
      forall h | 0 <= h < |s0.leases| ensures Counts(s0, h) {
        if h < |s.leases| {
          assert Counts(s, h);
        } else {
          forall role: Role ensures Players(s.callers, h, role) == {} { }
          assert Players(s.callers, h, User) == {} && Players(s.callers, h, Insider) == {} && Players(s.callers, h, Counted) == {};
        }
      }
    }
    CountsAfterMove(s0, c, Caller(g, Waiting, false, false), s0.leases[g].(users := s0.leases[g].users + 1));
    assert t.callers == Put(s0, c, Caller(g, Waiting, false, false), t.leases[g]).callers;
    forall h | 0 <= h < |t.leases| ensures Counts(t, h) {
      assert Counts(Put(s0, c, Caller(g, Waiting, false, false), t.leases[g]), h);
    }
    if s.entry.Some? {
      assert Counts(s, g);
    }
  }

  /** What one caller's move owes the rest of the state; it speaks of that caller, its lease and the log only. */
  predicate LocallySound(me: Caller, l: Lease, log: seq<Event>, me': Caller, l': Lease, log': seq<Event>) {
    && me'.lease == me.lease
    && Balanced(l, l', Some(me.pc), me'.pc)
    && (me.pc.Gone? ==> me'.pc.Gone?)
    && (me'.fired ==> AfterRelease(me'.pc))
    && Alternates(log')
    && (Plays(me'.pc, Insider) ==> InsideLog(me'.pc, l'.active, log'))
    && (Plays(me.pc, Insider) && !Plays(me'.pc, Insider) ==> Settled(l'.active, log'))
    && (!Plays(me.pc, Insider) ==> l'.active == l.active && log' == log)
  }

  lemma MoveIsBalanced(me: Caller, l: Lease, a: Action)
    requires Ready(me, l, a) && (me.fired ==> AfterRelease(me.pc))
    ensures Balanced(l, LeaseAfter(l, a), Some(me.pc), CallerAfter(me, l, a).pc)
    ensures CallerAfter(me, l, a).fired ==> AfterRelease(CallerAfter(me, l, a).pc)
  {
  }

  lemma OneMoreAlternates(log: seq<Event>, e: Event)
    requires Alternates(log) && Slot(e) == |log| % 4
    ensures Alternates(log + [e]) && |log + [e]| % 4 == (Slot(e) + 1) % 4
    ensures Last(log + [e]) == e && (log != [] ==> (log + [e])[|log| - 1] == Last(log))
  {
  }

  lemma MoveKeepsInsideLog(me: Caller, l: Lease, a: Action, log: seq<Event>)
    requires Ready(me, l, a) && Alternates(log)
    requires l.active >= 0 && (Plays(me.pc, Counted) ==> l.active > 0)
    requires Plays(me.pc, Insider) ==> InsideLog(me.pc, l.active, log)
    requires me.pc.Waiting? || me.pc.ReleaseWaiting? ==> l.tokens > 0 ==> Settled(l.active, log)
    ensures var pc, active, log' := CallerAfter(me, l, a).pc, LeaseAfter(l, a).active, log + Logged(l, a);
      && Alternates(log')
      && (Plays(pc, Insider) ==> InsideLog(pc, active, log'))
      && (Plays(me.pc, Insider) && !Plays(pc, Insider) ==> Settled(active, log'))
      && (!Plays(me.pc, Insider) ==> active == l.active && log' == log)
  {
    if Logged(l, a) != [] {
      OneMoreAlternates(log, Logged(l, a)[0]);
    } else {
      assert log + [] == log;
    }
  }

  lemma MoveIsLocallySound(me: Caller, l: Lease, a: Action, log: seq<Event>)
    requires Ready(me, l, a) && Alternates(log)
    requires me.fired ==> AfterRelease(me.pc)
    requires l.active >= 0 && (Plays(me.pc, Counted) ==> l.active > 0)
    requires Plays(me.pc, Insider) ==> InsideLog(me.pc, l.active, log)
    requires me.pc.Waiting? || me.pc.ReleaseWaiting? ==> l.tokens > 0 ==> Settled(l.active, log)
    ensures LocallySound(me, l, log, CallerAfter(me, l, a), LeaseAfter(l, a), log + Logged(l, a))
  {
    MoveIsBalanced(me, l, a);
    MoveKeepsInsideLog(me, l, a, log);
  }

  lemma SoundMoveKeepsLogFits(s: State, c: CallerId, me': Caller, l': Lease, log': seq<Event>)
    requires Invariant(s) && c in s.callers && !s.callers[c].pc.Gone?
    requires LocallySound(s.callers[c], s.leases[s.callers[c].lease], s.log, me', l', log')
    ensures LogFits(Put(s, c, me', l').(log := log'))
  {
    var t := Put(s, c, me', l').(log := log');
    var me := s.callers[c];
    var g := me.lease;
    assert s.entry == Some(g) && Counts(s, g);
    if Plays(me.pc, Insider) {
      InsiderIsAlone(s, c);
    }
    if l'.tokens > 0 && !Plays(me.pc, Insider) {
      assert s.leases[g].tokens > 0;
    }
  }

  lemma SoundMoveKeepsInvariant(s: State, c: CallerId, me': Caller, l': Lease, log': seq<Event>)
    requires Invariant(s) && c in s.callers && !s.callers[c].pc.Gone?
    requires LocallySound(s.callers[c], s.leases[s.callers[c].lease], s.log, me', l', log')
    ensures var t := Put(s, c, me', l').(log := log'); Invariant(if l'.users == 0 then t.(entry := None) else t)
  {
    var p := Put(s, c, me', l');
    var t := p.(log := log');
    var g := s.callers[c].lease;
    assert s.entry == Some(g);
    CountsAfterMove(s, c, me', l');
    SoundMoveKeepsLogFits(s, c, me', l', log');
    forall h | 0 <= h < |t.leases| ensures Counts(t, h) {
      assert Counts(p, h);
    }
    if l'.users == 0 {
      UnusedMeansIdle(t, g);
      var u := t.(entry := None);
      forall h | 0 <= h < |u.leases| ensures Counts(u, h) {
        assert Counts(t, h);
      }
    } else {
      assert Counts(t, g);
    }
  }

  lemma StepKeepsInvariant(s: State, c: CallerId, a: Action)
    requires Invariant(s) && Enabled(s, c, a)
    ensures Invariant(Apply(s, c, a))
  {
    if a.Start? {
      StartKeepsInvariant(s, c);
    } else if s.callers[c].pc.Gone? {
      GoneMovesKeepInvariant(s, c, a);
    } else {
      var me := s.callers[c];
      var l := s.leases[me.lease];
      var me', l', log' := CallerAfter(me, l, a), LeaseAfter(l, a), s.log + Logged(l, a);
      assert Counts(s, me.lease);
      if Plays(me.pc, Counted) {
        CountedMeansActive(s, c);
      }
      MoveIsLocallySound(me, l, a, s.log);
      SoundMoveKeepsInvariant(s, c, me', l', log');
      assert a.Drop? <==> me'.pc.Gone?;
      assert l.users > 0;
      assert !a.Drop? ==> l'.users == l.users;
    }
  }

  /** After dropping, a caller's context can still be cancelled and its release function called again; neither matters. */
  lemma GoneMovesKeepInvariant(s: State, c: CallerId, a: Action)
    requires Invariant(s) && Enabled(s, c, a) && !a.Start? && s.callers[c].pc.Gone?
    ensures Invariant(Apply(s, c, a))
    ensures a.CallRelease? ==> Apply(s, c, a) == s
  {
    var t := Apply(s, c, a);
    var me := s.callers[c];
    var l := s.leases[me.lease];
    var me' := CallerAfter(me, l, a);
    assert me'.pc == me.pc && LeaseAfter(l, a) == l && Logged(l, a) == [];
    assert t.log == s.log && t.leases == s.leases;
    CountsAfterMove(s, c, me', l);
    forall h | 0 <= h < |t.leases| ensures Counts(t, h) {
      assert Counts(Put(s, c, me', l), h);
    }
    assert a.CallRelease? ==> t.callers == s.callers;
  }
}
