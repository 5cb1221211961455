/**
 What every run of one key's lease keeps: the counting invariant, the alternation of lifecycle calls, a
 refinement to an atomic machine, and progress.
 */
module LeaseRuns {
  import opened Base
  import opened LeaseMachine

  ghost predicate Next(s: State, t: State) {
    WellFormed(s) && exists c, a :: Enabled(s, c, a) && t == Apply(s, c, a)
  }

  /** Any interleaving of any number of callers, from a server that has never seen the key. */
  ghost predicate IsRun(trace: seq<State>) {
    && trace != []
    && trace[0] == INIT
    && forall i | 0 <= i < |trace| - 1 :: Next(trace[i], trace[i + 1])
  }

  lemma {:induction false} RunKeepsInvariant(trace: seq<State>, i: nat)
    requires IsRun(trace) && i < |trace|
    ensures Invariant(trace[i])
  {
    if i == 0 {
      InitIsInvariant();
    } else {
      RunKeepsInvariant(trace, i - 1);
      assert Next(trace[i - 1], trace[i - 1 + 1]);
      var c, a :| Enabled(trace[i - 1], c, a) && trace[i] == Apply(trace[i - 1], c, a);
      StepKeepsInvariant(trace[i - 1], c, a);
    }
  }

  // ----- Counting -----

  /** The callers that have entered and not dropped, whatever lease object they refer to. */
  function Undropped(s: State): set<CallerId> {
    set c | c in s.callers && !s.callers[c].pc.Gone?
  }

  lemma RunCounts(trace: seq<State>, i: nat)
    requires IsRun(trace) && i < |trace|
    ensures var s := trace[i];
      && WellFormed(s)
      && (s.entry.Some? <==> Undropped(s) != {})
      && (s.entry.Some? ==>
            var g, l := s.entry.value, s.leases[s.entry.value];
            && l.users == |Undropped(s)| > 0
            && l.tokens + |Players(s.callers, g, Insider)| == 1
            && l.active == |Players(s.callers, g, Counted)|)
      && (forall g | 0 <= g < |s.leases| && s.entry != Some(g) ::
            s.leases[g] == FRESH && forall c <- s.callers :: s.callers[c].lease == g ==> s.callers[c].pc.Gone?)
  {
    RunKeepsInvariant(trace, i);
    var s := trace[i];
    if s.entry.Some? {
      var g := s.entry.value;
      assert Counts(s, g);
      assert Undropped(s) == Players(s.callers, g, User);
    }
    forall g | 0 <= g < |s.leases| && s.entry != Some(g)
      ensures s.leases[g] == FRESH && forall c <- s.callers :: s.callers[c].lease == g ==> s.callers[c].pc.Gone?
    {
      assert Counts(s, g);
      assert Players(s.callers, g, User) == {};
      UnusedMeansIdle(s, g);
    }
  }

  /** A caller about to send its token back finds the channel empty: no gate send ever blocks. */
  lemma GateSendNeverBlocks(trace: seq<State>, i: nat, c: CallerId)
    requires IsRun(trace) && i < |trace| && c in trace[i].callers
    requires trace[i].callers[c].pc.Publishing? || trace[i].callers[c].pc.Returning?
    ensures WellFormed(trace[i])
    ensures Enabled(trace[i], c, if trace[i].callers[c].pc.Publishing? then Publish else PutBack)
  {
    RunKeepsInvariant(trace, i);
    InsiderIsAlone(trace[i], c);
  }

  /** The map entry disappears only when its lease has no holder and nobody in its gate. */
  lemma EntryIsRemovedIdle(trace: seq<State>, i: nat)
    requires IsRun(trace) && i + 1 < |trace|
    requires trace[i].entry.Some? && trace[i + 1].entry.None?
    ensures WellFormed(trace[i])
    ensures var l := trace[i].leases[trace[i].entry.value]; l.users == 1 && l.active == 0 && l.tokens == 1
    ensures |trace[i].log| % 4 == 0
  {
    RunKeepsInvariant(trace, i);
    RunKeepsInvariant(trace, i + 1);
    var s, t := trace[i], trace[i + 1];
    assert Next(s, t);
    var c, a :| Enabled(s, c, a) && t == Apply(s, c, a);
    var g := s.callers[c].lease;
    assert Counts(t, g) && Counts(s, g);
    UnusedMeansIdle(t, g);
  }

  // ----- Alternation -----

  predicate InFlight(pc: PC) {
    pc.Ensuring? || pc.SetupCleanup? || pc.Cleaning?
  }

  /** No two lifecycle calls of the key overlap, and the log knows which one is running. */
  lemma OneCallInFlight(trace: seq<State>, i: nat)
    requires IsRun(trace) && i < |trace|
    ensures var s := trace[i]; forall c <- s.callers :: InFlight(s.callers[c].pc) ==>
      && s.log != []
      && (Last(s.log).EnsureBegin? <==> s.callers[c].pc.Ensuring?)
      && (Last(s.log).DeleteBegin? <==> !s.callers[c].pc.Ensuring?)
      && forall d <- s.callers :: InFlight(s.callers[d].pc) ==> d == c
  {
    RunKeepsInvariant(trace, i);
    var s := trace[i];
    forall c <- s.callers | InFlight(s.callers[c].pc)
      ensures
        && s.log != []
        && (Last(s.log).EnsureBegin? <==> s.callers[c].pc.Ensuring?)
        && (Last(s.log).DeleteBegin? <==> !s.callers[c].pc.Ensuring?)
        && forall d <- s.callers :: InFlight(s.callers[d].pc) ==> d == c
    {
      InsiderIsAlone(s, c);
      assert Slot(Last(s.log)) == (|s.log| - 1) % 4;
    }
  }

  /**
   Between two EnsureWorkspace calls of the key, in whatever lease generations they were made, lie the end
   of the first and exactly one DeletePod, begun and ended.
   */
  lemma EnsuresAreSeparatedByOneDelete(trace: seq<State>, i: nat, m: nat, n: nat)
    requires IsRun(trace) && i < |trace|
    requires m < n < |trace[i].log| && trace[i].log[m].EnsureBegin? && trace[i].log[n].EnsureBegin?
    requires forall k | m < k < n :: !trace[i].log[k].EnsureBegin?
    ensures n == m + 4
    ensures var log := trace[i].log; log[m + 1].EnsureEnd? && log[m + 2].DeleteBegin? && log[m + 3].DeleteEnd?
  {
    RunKeepsInvariant(trace, i);
    var log := trace[i].log;
    assert Slot(log[m]) == m % 4 && Slot(log[n]) == n % 4;
    assert Slot(log[m + 4]) == (m + 4) % 4;
    assert Slot(log[m + 1]) == (m + 1) % 4 && Slot(log[m + 2]) == (m + 2) % 4 && Slot(log[m + 3]) == (m + 3) % 4;
  }

  /** A caller that acquire has let in, and that has not released, keeps the workspace up. */
  lemma HolderMeansUp(s: State, c: CallerId)
    requires Invariant(s) && c in s.callers && Plays(s.callers[c].pc, Counted)
    ensures |s.log| % 4 == 2 && Last(s.log) == EnsureEnd(true)
  {
    CountedMeansActive(s, c);
    var g := s.callers[c].lease;
    assert Counts(s, g);
    var inside := Players(s.callers, g, Insider);
    if s.leases[g].tokens == 0 {
      assert |inside| == 1;
      var d :| d in inside;
      assert Plays(s.callers[d].pc, Insider);
    }
  }

  /** With nobody holding the key and nobody in its gate, the last lifecycle call was a DeletePod that has returned. */
  lemma IdleMeansDown(s: State)
    requires Invariant(s)
    requires forall c <- s.callers :: !Plays(s.callers[c].pc, Insider) && !Plays(s.callers[c].pc, Counted)
    ensures s.log != [] ==> Last(s.log).DeleteEnd?
  {
    if s.entry.Some? {
      var g := s.entry.value;
      assert Counts(s, g);
      assert Players(s.callers, g, Insider) == {} && Players(s.callers, g, Counted) == {};
    }
    if s.log != [] {
      assert Slot(Last(s.log)) == (|s.log| - 1) % 4;
    }
  }

  // ----- One caller by itself -----

  /** An Entered caller goes on to the look at active exactly if its context is live. */
  lemma OnlyLiveContextsGoOn(s: State, c: CallerId)
    requires Invariant(s) && c in s.callers && s.callers[c].pc.Entered?
    ensures Enabled(s, c, CheckContext)
    ensures Apply(s, c, CheckContext).callers[c].pc.Checked? <==> !s.callers[c].cancelled
    ensures Apply(s, c, CheckContext).callers[c].pc.Returning? <==> s.callers[c].cancelled
  {
  }

  /** What one caller sees of the key: itself, its lease and the calls so far. */
  datatype Own = Own(me: Caller, lease: Lease, log: seq<Event>)

  /** A statement of the caller, with nobody else running; one that is not its next changes nothing. */
  function Then(o: Own, a: Action): Own {
    if Ready(o.me, o.lease, a) then Own(CallerAfter(o.me, o.lease, a), LeaseAfter(o.lease, a), o.log + Logged(o.lease, a)) else o
  }

  /** Every statement of a caller does to the key what it does to what the caller sees. */
  lemma StepIsThen(s: State, c: CallerId, a: Action)
    requires WellFormed(s) && Enabled(s, c, a) && !a.Start?
    ensures var o, t := Own(s.callers[c], s.leases[s.callers[c].lease], s.log), Apply(s, c, a);
      Then(o, a) == Own(t.callers[c], t.leases[s.callers[c].lease], t.log)
  {
  }

  /** The caller has left, without its token and its use of the lease. */
  function Left(o: Own): Own {
    o.(me := o.me.(pc := Gone), lease := o.lease.(tokens := 1, users := o.lease.users - 1))
  }

  /** The caller has joined and given the gate back. */
  function Joined(o: Own): Own {
    o.(me := o.me.(pc := Holding), lease := o.lease.(tokens := 1, active := o.lease.active + 1))
  }

  function Calls(o: Own, events: seq<Event>): Own {
    o.(log := o.log + events)
  }

  /** acquireWorkspace once it has the gate: given up for a cancelled context, without a lifecycle call, ... */
  lemma CancelledGivesUp(o: Own)
    requires o.me.pc.Entered? && o.me.cancelled && o.lease.tokens == 0
    ensures Then(Then(Then(o, CheckContext), PutBack), Drop) == Left(o)
  {
  }

  /** ... joined without a lifecycle call when the workspace is held, ... */
  lemma LiveJoinsHolders(o: Own)
    requires o.me.pc.Entered? && !o.me.cancelled && o.lease.tokens == 0 && o.lease.active != 0
    ensures Then(Then(Then(Then(o, CheckContext), Decide), Join), Publish) == Joined(o)
  {
  }

  /** ... or, by the first holder, provisioned: EnsureWorkspace is called, ... */
  lemma LiveEnsures(o: Own, ok: bool)
    requires o.me.pc.Entered? && !o.me.cancelled && o.lease.tokens == 0 && o.lease.active == 0
    ensures Then(Then(Then(o, CheckContext), Decide), FinishEnsure(ok))
      == Calls(o.(me := o.me.(pc := if ok then Joining else SetupFailed)), [EnsureBegin, EnsureEnd(ok)])
  {
    assert o.log + [] + [EnsureBegin] + [EnsureEnd(ok)] == o.log + [EnsureBegin, EnsureEnd(ok)];
  }

  /** ... and the caller joins if it succeeded, and deletes the pod and gives up if not. */
  lemma EnsuredGoesOn(o: Own, deleted: bool)
    requires o.lease.tokens == 0
    ensures o.me.pc.Joining? ==> Then(Then(o, Join), Publish) == Joined(o)
    ensures o.me.pc.SetupFailed? ==>
      Then(Then(Then(Then(o, BeginCleanup), FinishDelete(deleted)), PutBack), Drop) == Calls(Left(o), [DeleteBegin, DeleteEnd(deleted)])
  {
    assert o.log + [DeleteBegin] + [DeleteEnd(deleted)] == o.log + [DeleteBegin, DeleteEnd(deleted)];
  }

  /** release once it has the gate: one holder less, ... */
  function Down(o: Own): Own {
    o.(lease := o.lease.(active := o.lease.active - 1))
  }

  /** ... and the last holder deletes the pod, ... */
  lemma LastReleaseDeletes(o: Own, deleted: bool)
    requires o.me.pc.Releasing? && o.lease.tokens == 0 && o.lease.active == 1
    ensures Then(Then(Then(Then(Then(o, Decrement), AfterDecrement), FinishDelete(deleted)), PutBack), Drop)
      == Calls(Left(Down(o)), [DeleteBegin, DeleteEnd(deleted)])
  {
    var cleaning := Calls(Down(o).(me := o.me.(pc := Cleaning)), [DeleteBegin]);
    assert Then(Then(o, Decrement), AfterDecrement) == cleaning;
    assert o.log + [DeleteBegin] + [DeleteEnd(deleted)] == o.log + [DeleteBegin, DeleteEnd(deleted)];
  }

  /** ... and any other leaves it up. */
  lemma EarlierReleaseLeavesUp(o: Own)
    requires o.me.pc.Releasing? && o.lease.tokens == 0 && o.lease.active != 1
    ensures Then(Then(Then(Then(o, Decrement), AfterDecrement), PutBack), Drop) == Left(Down(o))
  {
    assert Then(Then(o, Decrement), AfterDecrement) == Down(o).(me := o.me.(pc := Returning));
  }

  // ----- Why acquireWorkspace gives up -----

  /** A caller that has not held the key gives up for its context, or because a setup has failed. */
  predicate HasCause(v: Caller, log: seq<Event>) {
    && (v.pc.SetupFailed? || v.pc.SetupCleanup? ==> EnsureEnd(false) in log)
    && ((v.pc.Returning? || v.pc.Dropping? || v.pc.Gone?) && !v.fired ==> v.cancelled || EnsureEnd(false) in log)
    && (v.pc.ReleaseWaiting? || v.pc.Releasing? || v.pc.Released? || v.pc.Cleaning? ==> v.fired)
  }

  lemma CauseStays(v: Caller, l: Lease, a: Action, log: seq<Event>)
    requires HasCause(v, log) && Ready(v, l, a)
    ensures HasCause(CallerAfter(v, l, a), log + Logged(l, a))
  {
    assert forall e <- log :: e in log + Logged(l, a);
    if a == FinishEnsure(false) {
      assert (log + [EnsureEnd(false)])[|log|] == EnsureEnd(false);
    }
  }

  lemma StepKeepsCauses(s: State, c: CallerId, a: Action)
    requires WellFormed(s) && Enabled(s, c, a) && forall d <- s.callers :: HasCause(s.callers[d], s.log)
    ensures forall d <- Apply(s, c, a).callers :: HasCause(Apply(s, c, a).callers[d], Apply(s, c, a).log)
  {
    var t := Apply(s, c, a);
    ApplyMovesOneCaller(s, c, a);
    assert forall e <- s.log :: e in t.log;
    if !a.Start? {
      CauseStays(s.callers[c], s.leases[s.callers[c].lease], a, s.log);
    }
  }

  /** In every run whoever has left without ever holding the key was cancelled, or a setup of the key had failed. */
  lemma {:induction false} GivingUpHasACause(trace: seq<State>, i: nat)
    requires IsRun(trace) && i < |trace|
    ensures forall c <- trace[i].callers :: HasCause(trace[i].callers[c], trace[i].log)
  {
    if i > 0 {
      GivingUpHasACause(trace, i - 1);
      assert Next(trace[i - 1], trace[i - 1 + 1]);
      var c, a :| Enabled(trace[i - 1], c, a) && trace[i] == Apply(trace[i - 1], c, a);
      StepKeepsCauses(trace[i - 1], c, a);
    }
  }

  // ----- Refinement to an atomic machine -----

  datatype Call = Ensured(ok: bool) | Deleted(ok: bool)

  /** A key as its clients see it: who holds it, and the lifecycle calls made so far. */
  datatype Atomic = Atomic(holders: set<CallerId>, calls: seq<Call>)

  datatype AtomicOp =
    | Stutter
    | FirstJoin(c: CallerId)                 // the workspace is provisioned for c
    | FailedSetup(deleted: bool)             // provisioning fails and is undone, nobody joins
    | JoinHolders(c: CallerId)
    | Leave(c: CallerId)
    | LastLeave(c: CallerId, deleted: bool)  // the workspace is deleted as c leaves

  predicate AtomicStep(m: Atomic, op: AtomicOp, n: Atomic) {
    match op
    case Stutter => n == m
    case FirstJoin(c) => m.holders == {} && n == Atomic({c}, m.calls + [Ensured(true)])
    case FailedSetup(d) => m.holders == {} && n == Atomic({}, m.calls + [Ensured(false), Deleted(d)])
    case JoinHolders(c) => m.holders != {} && c !in m.holders && n == m.(holders := m.holders + {c})
    case Leave(c) => c in m.holders && m.holders != {c} && n == m.(holders := m.holders - {c})
    case LastLeave(c, d) => m.holders == {c} && n == Atomic({}, m.calls + [Deleted(d)])
  }

  ghost predicate AtomicNext(m: Atomic, n: Atomic) {
    exists op :: AtomicStep(m, op, n)
  }

  predicate Holds(pc: PC) {
    pc.Joining? || pc.Publishing? || pc.Holding? || pc.ReleaseWaiting? || pc.Releasing? || pc.Released? || pc.Cleaning?
  }

  function Holders(s: State): set<CallerId> {
    set c | c in s.callers && Holds(s.callers[c].pc)
  }

  function Returned(log: seq<Event>): seq<Call> {
    if log == [] then [] else
      var before := Returned(log[..|log| - 1]);
      match Last(log)
      case EnsureEnd(ok) => before + [Ensured(ok)]
      case DeleteEnd(ok) => before + [Deleted(ok)]
      case _ => before
  }

  /** A failed provisioning takes effect together with the deletion that undoes it. */
  function Committed(calls: seq<Call>): seq<Call> {
    if calls != [] && Last(calls) == Ensured(false) then calls[..|calls| - 1] else calls
  }

  function Abstract(s: State): Atomic {
    Atomic(Holders(s), Committed(Returned(s.log)))
  }

  lemma ReturnedOneMore(log: seq<Event>, e: Event)
    ensures Returned(log + [e]) == Returned(log) +
      match e case EnsureEnd(ok) => [Ensured(ok)] case DeleteEnd(ok) => [Deleted(ok)] case _ => []
  {
    assert (log + [e])[..|log|] == log;
  }

  /** The last returned call, read off the log: between calls, ... */
  lemma {:induction false} LastReturnedDelete(log: seq<Event>)
    requires Alternates(log) && |log| % 4 <= 1
    ensures Returned(log) == [] || Last(Returned(log)).Deleted?
  {
    if log != [] {
      var before := log[..|log| - 1];
      assert Slot(Last(log)) == (|log| - 1) % 4;
      if |log| % 4 == 1 {
        LastReturnedDelete(before);
      }
    }
  }

  /** ... after an EnsureWorkspace has returned, ... */
  lemma {:induction false} LastReturnedEnsure(log: seq<Event>)
    requires Alternates(log) && |log| % 4 == 2
    ensures Last(log).EnsureEnd? && Returned(log) != []
    ensures Last(Returned(log)) == Ensured(Last(log).ok)
    ensures Committed(Returned(log)) == if Last(log).ok then Returned(log) else Returned(log[..|log| - 1])
  {
    assert Slot(Last(log)) == (|log| - 1) % 4;
  }

  /** ... and while the DeletePod after it runs. */
  lemma {:induction false} LastReturnedBeforeDelete(log: seq<Event>)
    requires Alternates(log) && |log| % 4 == 3
    ensures log[|log| - 2].EnsureEnd? && Returned(log) != []
    ensures Last(Returned(log)) == Ensured(log[|log| - 2].ok)
  {
    assert Slot(Last(log)) == (|log| - 1) % 4;
    var before := log[..|log| - 1];
    LastReturnedEnsure(before);
  }

  /** While one caller is in the gate and active is zero, nobody else holds the key. */
  lemma NoOtherHolder(s: State, c: CallerId)
    requires Invariant(s) && c in s.callers && Plays(s.callers[c].pc, Insider)
    requires s.leases[s.callers[c].lease].active == 0
    ensures Holders(s) <= {c}
  {
    InsiderIsAlone(s, c);
    forall d | d in Holders(s) ensures d == c {
      if Plays(s.callers[d].pc, Counted) {
        assert Plays(s.callers[c].pc, User) && Plays(s.callers[d].pc, User);
        CountedMeansActive(s, d);
      }
    }
  }

  /** While active is positive there is a holder other than a caller that active does not count. */
  lemma SomeOtherHolder(s: State, c: CallerId)
    requires Invariant(s) && c in s.callers && !Plays(s.callers[c].pc, Counted)
    requires s.leases[s.callers[c].lease].active > 0
    ensures exists d :: d in Holders(s) && d != c
  {
    var g := s.callers[c].lease;
    assert Counts(s, g);
    var d :| d in Players(s.callers, g, Counted);
    assert d in Holders(s);
  }

  lemma HoldersAfterMove(s: State, c: CallerId, a: Action)
    requires WellFormed(s) && Enabled(s, c, a)
    ensures Holders(Apply(s, c, a)) ==
      if Holds(Apply(s, c, a).callers[c].pc) then Holders(s) + {c} else Holders(s) - {c}
  {
  }

  lemma StepRefines(s: State, c: CallerId, a: Action)
    requires Invariant(s) && Enabled(s, c, a)
    ensures AtomicNext(Abstract(s), Abstract(Apply(s, c, a)))
  {
    var t := Apply(s, c, a);
    HoldersAfterMove(s, c, a);
    if a.Start? || Logged(s.leases[s.callers[c].lease], a) == [] {
      assert t.log == s.log;
      QuietStepRefines(s, c, a);
    } else {
      LoudStepRefines(s, c, a);
    }
  }

  /** The operation of the atomic machine that a step without a lifecycle event is. */
  function QuietOp(c: CallerId, a: Action): AtomicOp {
    if a.Decide? then JoinHolders(c) else if a.AfterDecrement? then Leave(c) else Stutter
  }

  lemma QuietStepRefines(s: State, c: CallerId, a: Action)
    requires Invariant(s) && Enabled(s, c, a) && Apply(s, c, a).log == s.log
    ensures AtomicNext(Abstract(s), Abstract(Apply(s, c, a)))
  {
    QuietStepHolders(s, c, a, Committed(Returned(s.log)));
    assert AtomicStep(Abstract(s), QuietOp(c, a), Abstract(Apply(s, c, a)));
  }

  lemma QuietStepHolders(s: State, c: CallerId, a: Action, calls: seq<Call>)
    requires Invariant(s) && Enabled(s, c, a) && Apply(s, c, a).log == s.log
    ensures AtomicStep(Atomic(Holders(s), calls), QuietOp(c, a), Atomic(Holders(Apply(s, c, a)), calls))
  {
    HoldersAfterMove(s, c, a);
    if a.Decide? || a.AfterDecrement? {
      assert Counts(s, s.callers[c].lease);
      SomeOtherHolder(s, c);
    }
  }

  lemma LoudStepRefines(s: State, c: CallerId, a: Action)
    requires Invariant(s) && Enabled(s, c, a) && !a.Start? && Logged(s.leases[s.callers[c].lease], a) != []
    ensures AtomicNext(Abstract(s), Abstract(Apply(s, c, a)))
  {
    if a.FinishEnsure? {
      EnsureEndHolders(s, c, a.ok);
      EnsureEndRefines(c, Holders(s), s.log, a.ok);
    } else if a.FinishDelete? {
      DeletionEmptiesHolders(s, c, a.ok);
      DeleteEndRefines(c, Holders(s), s.log, a.ok);
    } else {
      BeginKeepsHolders(s, c, a);
      BeginRefines(Holders(s), s.log, Logged(s.leases[s.callers[c].lease], a)[0]);
    }
  }

  lemma BeginKeepsHolders(s: State, c: CallerId, a: Action)
    requires Invariant(s) && Enabled(s, c, a) && !a.Start? && !a.FinishEnsure? && !a.FinishDelete?
    requires Logged(s.leases[s.callers[c].lease], a) != []
    ensures Holders(Apply(s, c, a)) == Holders(s)
    ensures var e := Logged(s.leases[s.callers[c].lease], a)[0];
      Apply(s, c, a).log == s.log + [e] && (e.EnsureBegin? || e.DeleteBegin?)
  {
    HoldersAfterMove(s, c, a);
  }

  /** The begin of a lifecycle call is not seen by clients. */
  lemma BeginRefines(holders: set<CallerId>, log: seq<Event>, e: Event)
    requires e.EnsureBegin? || e.DeleteBegin?
    ensures AtomicNext(Atomic(holders, Committed(Returned(log))), Atomic(holders, Committed(Returned(log + [e]))))
  {
    CommittedBegin(log, e);
    assert AtomicStep(Atomic(holders, Committed(Returned(log))), Stutter, Atomic(holders, Committed(Returned(log + [e]))));
  }

  lemma EnsureEndHolders(s: State, c: CallerId, ok: bool)
    requires Invariant(s) && Enabled(s, c, FinishEnsure(ok))
    ensures Holders(s) == {} && Holders(Apply(s, c, FinishEnsure(ok))) == if ok then {c} else {}
    ensures Alternates(s.log) && |s.log| % 4 == 1 && Apply(s, c, FinishEnsure(ok)).log == s.log + [EnsureEnd(ok)]
  {
    NoOtherHolder(s, c);
    HoldersAfterMove(s, c, FinishEnsure(ok));
  }

  lemma EnsureEndRefines(c: CallerId, holders: set<CallerId>, log: seq<Event>, ok: bool)
    requires holders == {} && Alternates(log) && |log| % 4 == 1
    ensures AtomicNext(Atomic(holders, Committed(Returned(log))),
                       Atomic(if ok then {c} else {}, Committed(Returned(log + [EnsureEnd(ok)]))))
  {
    CommittedEnsureEnd(log, ok);
    assert AtomicStep(Atomic(holders, Committed(Returned(log))), if ok then FirstJoin(c) else Stutter,
                      Atomic(if ok then {c} else {}, Committed(Returned(log + [EnsureEnd(ok)]))));
  }

  lemma DeleteEndRefines(c: CallerId, holders: set<CallerId>, log: seq<Event>, ok: bool)
    requires Alternates(log) && |log| % 4 == 3 && log[|log| - 2].EnsureEnd?
    requires holders == if log[|log| - 2].ok then {c} else {}
    ensures AtomicNext(Atomic(holders, Committed(Returned(log))), Atomic({}, Committed(Returned(log + [DeleteEnd(ok)]))))
  {
    CommittedDeleteEnd(log, ok);
    var op := if log[|log| - 2].ok then LastLeave(c, ok) else FailedSetup(ok);
    assert AtomicStep(Atomic(holders, Committed(Returned(log))), op, Atomic({}, Committed(Returned(log + [DeleteEnd(ok)]))));
  }

  lemma DeletionEmptiesHolders(s: State, c: CallerId, ok: bool)
    requires Invariant(s) && Enabled(s, c, FinishDelete(ok))
    ensures Holders(s) == if s.callers[c].pc.SetupCleanup? then {} else {c}
    ensures Holders(Apply(s, c, FinishDelete(ok))) == {}
    ensures Alternates(s.log) && |s.log| % 4 == 3 && s.log[|s.log| - 2] == EnsureEnd(!s.callers[c].pc.SetupCleanup?)
    ensures Apply(s, c, FinishDelete(ok)).log == s.log + [DeleteEnd(ok)]
  {
    NoOtherHolder(s, c);
    HoldersAfterMove(s, c, FinishDelete(ok));
  }

  lemma CommittedBegin(log: seq<Event>, e: Event)
    requires e.EnsureBegin? || e.DeleteBegin?
    ensures Committed(Returned(log + [e])) == Committed(Returned(log))
  {
    ReturnedOneMore(log, e);
  }

  lemma CommittedEnsureEnd(log: seq<Event>, ok: bool)
    requires Alternates(log) && |log| % 4 == 1
    ensures Committed(Returned(log + [EnsureEnd(ok)])) ==
      Committed(Returned(log)) + (if ok then [Ensured(true)] else [])
  {
    ReturnedOneMore(log, EnsureEnd(ok));
    LastReturnedDelete(log);
  }

  lemma CommittedDeleteEnd(log: seq<Event>, ok: bool)
    requires Alternates(log) && |log| % 4 == 3
    ensures log[|log| - 2].EnsureEnd?
    ensures Committed(Returned(log + [DeleteEnd(ok)])) ==
      Committed(Returned(log)) + (if log[|log| - 2].ok then [Deleted(ok)] else [Ensured(false), Deleted(ok)])
  {
    ReturnedOneMore(log, DeleteEnd(ok));
    LastReturnedBeforeDelete(log);
    CommittedDeletion(Returned(log), ok);
  }

  lemma CommittedDeletion(calls: seq<Call>, ok: bool)
    requires calls != [] && Last(calls).Ensured?
    ensures Committed(calls + [Deleted(ok)]) ==
      Committed(calls) + (if Last(calls).ok then [Deleted(ok)] else [Ensured(false), Deleted(ok)])
  {
    assert calls == calls[..|calls| - 1] + [Last(calls)];
  }

  /**
   Every run is a run of the atomic machine. Steps on lease objects, the gate, the counters and the map,
   including the deletion and re-creation of the entry, are invisible there.
   */
  lemma RunRefines(trace: seq<State>)
    requires IsRun(trace)
    ensures Abstract(trace[0]) == Atomic({}, [])
    ensures forall i | 0 <= i < |trace| - 1 ::
      AtomicNext(Abstract(trace[i]), Abstract(trace[i + 1]))
  {
    forall i | 0 <= i < |trace| - 1
      ensures AtomicNext(Abstract(trace[i]), Abstract(trace[i + 1]))
    {
      RunKeepsInvariant(trace, i);
      assert Next(trace[i], trace[i + 1]);
      var c, a :| Enabled(trace[i], c, a) && trace[i + 1] == Apply(trace[i], c, a);
      StepRefines(trace[i], c, a);
    }
  }

  /** What the atomic machine promises: calls come in pairs, and the key is held exactly while it is provisioned. */
  predicate AtomicInvariant(m: Atomic) {
    && (forall i | 0 <= i < |m.calls| :: m.calls[i].Ensured? <==> i % 2 == 0)
    && (m.holders != {} <==> m.calls != [] && Last(m.calls) == Ensured(true))
    && (m.holders == {} <==> |m.calls| % 2 == 0)
  }

  lemma AtomicStepKeepsInvariant(m: Atomic, op: AtomicOp, n: Atomic)
    requires AtomicInvariant(m) && AtomicStep(m, op, n)
    ensures AtomicInvariant(n)
  {
  }

  lemma {:induction false} RunIsAtomicallySound(trace: seq<State>, i: nat)
    requires IsRun(trace) && i < |trace|
    ensures AtomicInvariant(Abstract(trace[i]))
    ensures forall c <- trace[i].callers :: trace[i].callers[c].pc.Holding? ==> c in Abstract(trace[i]).holders
  {
    RunRefines(trace);
    if i > 0 {
      RunIsAtomicallySound(trace, i - 1);
      assert AtomicNext(Abstract(trace[i - 1]), Abstract(trace[i - 1 + 1]));
      var op :| AtomicStep(Abstract(trace[i - 1]), op, Abstract(trace[i]));
      AtomicStepKeepsInvariant(Abstract(trace[i - 1]), op, Abstract(trace[i]));
    }
  }

  // ----- Progress -----

  /** How many statements a caller inside the gate has left before it gives the gate back. */
  function GateSteps(pc: PC): nat
    requires Plays(pc, Insider)
  {
    match pc
    case Entered => 6
    case Checked => 5
    case Ensuring => 4
    case SetupFailed => 3
    case SetupCleanup => 2
    case Joining => 2
    case Publishing => 1
    case Releasing => 4
    case Released => 3
    case Cleaning => 2
    case Returning => 1
  }

  /** The statement such a caller runs next; a lifecycle call in flight is about to return. */
  function NextInside(pc: PC): Action
    requires Plays(pc, Insider)
  {
    match pc
    case Entered => CheckContext
    case Checked => Decide
    case Ensuring => FinishEnsure(false)
    case SetupFailed => BeginCleanup
    case SetupCleanup => FinishDelete(false)
    case Joining => Join
    case Publishing => Publish
    case Releasing => Decrement
    case Released => AfterDecrement
    case Cleaning => FinishDelete(false)
    case Returning => PutBack
  }

  predicate Blocked(s: State, c: CallerId)
    requires WellFormed(s)
  {
    && c in s.callers
    && (s.callers[c].pc.Waiting? || s.callers[c].pc.ReleaseWaiting?)
    && s.leases[s.callers[c].lease].tokens == 0
  }

  /** A caller blocked at the gate waits for exactly one other caller, which can move. */
  lemma BlockedBehindOne(trace: seq<State>, i: nat, c: CallerId) returns (d: CallerId)
    requires IsRun(trace) && i < |trace| && WellFormed(trace[i]) && Blocked(trace[i], c)
    ensures var s := trace[i];
      && d in s.callers && d != c && s.callers[d].lease == s.callers[c].lease
      && Plays(s.callers[d].pc, Insider)
      && (forall e <- s.callers :: Plays(s.callers[e].pc, Insider) ==> e == d)
      && Enabled(s, d, NextInside(s.callers[d].pc))
  {
    RunKeepsInvariant(trace, i);
    d := TheInsider(trace[i], c);
  }

  lemma TheInsider(s: State, c: CallerId) returns (d: CallerId)
    requires Invariant(s) && Blocked(s, c)
    ensures d in s.callers && d != c && s.callers[d].lease == s.callers[c].lease && Plays(s.callers[d].pc, Insider)
    ensures forall e <- s.callers :: Plays(s.callers[e].pc, Insider) ==> e == d
    ensures Enabled(s, d, NextInside(s.callers[d].pc))
  {
    var g := s.callers[c].lease;
    assert Counts(s, g);
    var inside := Players(s.callers, g, Insider);
    assert |inside| == 1;
    d :| d in inside;
    InsiderIsAlone(s, d);
  }

  /** Every statement run inside the gate, whatever it decides and whatever the lifecycle call returns, nears its return. */
  lemma InsideStepsNearTheGate(s: State, c: CallerId, a: Action)
    requires Invariant(s) && Enabled(s, c, a) && !a.Start? && !a.Cancel?
    requires Plays(s.callers[c].pc, Insider)
    ensures var pc, pc' := s.callers[c].pc, Apply(s, c, a).callers[c].pc;
      if GateSteps(pc) > 1 then Plays(pc', Insider) && GateSteps(pc') < GateSteps(pc)
      else !Plays(pc', Insider) && Apply(s, c, a).leases[s.callers[c].lease].tokens == 1
  {
    InsiderIsAlone(s, c);
    assert Counts(s, s.callers[c].lease);
  }

  /** Any caller's context can end at any time, and nothing else ends it or comes of that alone. */
  lemma OnlyCancelEndsContext(s: State, c: CallerId, a: Action)
    requires WellFormed(s) && Enabled(s, c, a) && c in s.callers
    ensures Apply(s, c, a).callers[c].cancelled <==> s.callers[c].cancelled || a.Cancel?
    ensures !s.callers[c].cancelled ==>
      Enabled(s, c, Cancel) && Apply(s, c, Cancel) == s.(callers := s.callers[c := s.callers[c].(cancelled := true)])
  {
    var l := s.callers[c].lease;
    assert s.leases[l := s.leases[l]] == s.leases;
  }

  /** A waiter whose context is cancelled leaves in two steps of its own, whoever is in the gate. */
  lemma CancelledWaiterLeaves(s: State, c: CallerId)
    requires Invariant(s) && c in s.callers && s.callers[c].pc.Waiting? && s.callers[c].cancelled
    ensures Enabled(s, c, LeaveQueue)
    ensures var t := Apply(s, c, LeaveQueue);
      Invariant(t) && Enabled(t, c, Drop) && Apply(t, c, Drop).callers[c].pc.Gone? && Apply(t, c, Drop).log == s.log
  {
    StepKeepsInvariant(s, c, LeaveQueue);
  }

  /** The system is stuck only when every caller holds the key or has left it. */
  lemma NoDeadlock(trace: seq<State>, i: nat, c: CallerId) returns (d: CallerId, a: Action)
    requires IsRun(trace) && i < |trace|
    requires c in trace[i].callers && !trace[i].callers[c].pc.Holding? && !trace[i].callers[c].pc.Gone?
    ensures WellFormed(trace[i]) && Enabled(trace[i], d, a) && !a.Start? && !a.Cancel?
    ensures Distance(Apply(trace[i], d, a).callers[d].pc) < Distance(trace[i].callers[d].pc)
  {
    RunKeepsInvariant(trace, i);
    d, a := SomebodyCanMove(trace[i], c);
  }

  lemma SomebodyCanMove(s: State, c: CallerId) returns (d: CallerId, a: Action)
    requires Invariant(s) && c in s.callers && !s.callers[c].pc.Holding? && !s.callers[c].pc.Gone?
    ensures Enabled(s, d, a) && !a.Start? && !a.Cancel? && !a.CallRelease?
    ensures Distance(Apply(s, d, a).callers[d].pc) < Distance(s.callers[d].pc)
  {
    d := c;
    var pc := s.callers[c].pc;
    if Plays(pc, Insider) {
      a := NextInside(pc);
      InsiderIsAlone(s, c);
    } else if Blocked(s, c) {
      d := TheInsider(s, c);
      a := NextInside(s.callers[d].pc);
    } else {
      a := match pc case Waiting => TakeGate case ReleaseWaiting => TakeGateAgain case _ => Drop;
    }
    EveryStepNearsTheEnd(s, d, a);
  }

  /** No caller ever comes back to a statement it has passed: the most steps it has left. */
  function Distance(pc: PC): nat {
    match pc
    case Waiting => 16
    case Entered => 15
    case Checked => 14
    case Ensuring => 13
    case SetupFailed => 12
    case SetupCleanup => 11
    case Joining => 10
    case Publishing => 9
    case Holding => 8
    case ReleaseWaiting => 7
    case Releasing => 6
    case Released => 5
    case Cleaning => 4
    case Returning => 3
    case Dropping => 2
    case Gone => 1
  }

  lemma CallerNearsTheEnd(me: Caller, l: Lease, a: Action)
    requires Ready(me, l, a) && !me.pc.Gone? && !a.Cancel? && (me.pc.Holding? ==> !me.fired)
    ensures Distance(CallerAfter(me, l, a).pc) < Distance(me.pc)
  {
  }

  lemma EveryStepNearsTheEnd(s: State, c: CallerId, a: Action)
    requires Invariant(s) && Enabled(s, c, a) && !a.Start? && !a.Cancel?
    ensures var t := Apply(s, c, a);
      if s.callers[c].pc.Gone? then t == s else Distance(t.callers[c].pc) < Distance(s.callers[c].pc)
  {
    if s.callers[c].pc.Gone? {
      GoneMovesKeepInvariant(s, c, a);
    } else {
      ApplyMovesOneCaller(s, c, a);
      CallerNearsTheEnd(s.callers[c], s.leases[s.callers[c].lease], a);
    }
  }
}
