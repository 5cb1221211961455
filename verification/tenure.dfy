/**
 The whole coordinator: the leases of all keys, the lifecycle calls they have in flight, and the cluster. Steps of
 every caller of every key, of every call and of the environment interleave freely.
 */
module Tenure {
  import opened Base
  import opened Cluster
  import L = LeaseMachine
  import LeaseRuns
  import Naming

  /** A workspace ID and the mode it is wanted in: what a caller's identity amounts to here. */
  datatype Want = Want(workspace: string, mode: StorageMode)

  /** persistent is the model's own: the workspaces that EnsureWorkspace has been called for in persistent mode. */
  datatype System = System(keys: map<Name, L.State>, calls: map<Name, Call>, world: World, persistent: set<string>)

  datatype Move =
    | LeaseMove(k: Name, c: L.CallerId, a: L.Action, want: Want)
    | CallMove(k: Name, an: Answer)
    | ReturnMove(k: Name, c: L.CallerId)
    | Environment(h: Happening)

  function Key(s: System, k: Name): L.State {
    if k in s.keys then s.keys[k] else L.INIT
  }

  /** What the lease sees when the call in flight has a result. */
  function Return(call: Call): L.Action
    requires call.Ensured? || call.Deleted?
  {
    if call.Ensured? then L.FinishEnsure(call.ok) else L.FinishDelete(call.ok)
  }

  predicate Enabled(s: System, m: Move) {
    match m
    case LeaseMove(k, c, a, want) =>
      && Naming.EndsInHex(want.workspace) && k == Naming.PodName(want.workspace, want.mode)
      && L.WellFormed(Key(s, k)) && L.Enabled(Key(s, k), c, a) && !a.FinishEnsure? && !a.FinishDelete?
    case CallMove(k, _) => k in s.calls
    case ReturnMove(k, c) =>
      && k in s.calls && (s.calls[k].Ensured? || s.calls[k].Deleted?)
      && L.WellFormed(Key(s, k)) && L.Enabled(Key(s, k), c, Return(s.calls[k]))
    case Environment(_) => true
  }

  /** EnsureWorkspace begins with the PVC of the identity, if it is wanted in persistent mode. */
  function FirstRequest(want: Want): Call {
    if want.mode.Persistent? then GetClaim(Naming.PVCName(want.workspace)) else GetPod
  }

  /** A lease step that begins a lifecycle call puts it in flight. */
  function Begun(s: System, k: Name, t: L.State, want: Want): System {
    var s' := s.(keys := s.keys[k := t]);
    if t.log == Key(s, k).log || t.log == [] then s'
    else if Last(t.log).EnsureBegin? then
      s'.(calls := s.calls[k := FirstRequest(want)],
          persistent := s.persistent + if want.mode.Persistent? then {want.workspace} else {})
    else s'.(calls := s.calls[k := EvictEndpoint])
  }

  function Apply(s: System, m: Move, ssh: bool): System
    requires Enabled(s, m)
  {
    match m
    case LeaseMove(k, c, a, want) => Begun(s, k, L.Apply(Key(s, k), c, a), want)
    case CallMove(k, an) =>
      var (w, call) := CallStep(s.world, ssh, k, s.calls[k], an);
      s.(world := w, calls := s.calls[k := call])
    case ReturnMove(k, c) =>
      s.(keys := s.keys[k := L.Apply(Key(s, k), c, Return(s.calls[k]))], calls := s.calls - {k})
    case Environment(h) => s.(world := After(s.world, h))
  }

  /** What the key's log says about its call in flight, its pod and its endpoint. */
  predicate KeyFits(s: System, ssh: bool, k: Name) {
    var log := Key(s, k).log;
    match |log| % 4
    case 0 => k !in s.calls && k !in s.world.endpoints && (log != [] && Last(log) == L.DeleteEnd(true) ==> k !in s.world.pods)
    case 1 => k in s.calls && !Deleting(s.calls[k]) && Fits(s.world, ssh, k, s.calls[k])
    case 2 => k !in s.calls && if Last(log) == L.EnsureEnd(true) then Leased(s.world, ssh, k) else k !in s.world.endpoints
    case _ => k in s.calls && Deleting(s.calls[k]) && Fits(s.world, ssh, k, s.calls[k])
  }

  ghost predicate Invariant(s: System, ssh: bool) {
    forall k: Name :: L.Invariant(Key(s, k)) && KeyFits(s, ssh, k)
  }

  /** The server starts with no lease and an empty cache, over whatever the cluster holds. */
  predicate Initial(s: System) {
    && s.keys == map[] && s.calls == map[] && s.world.endpoints == map[] && s.persistent == {}
    && UidsFit(s.world)
  }

  ghost predicate Next(s: System, t: System, ssh: bool) {
    exists m :: Enabled(s, m) && t == Apply(s, m, ssh)
  }

  ghost predicate NextAt(trace: seq<System>, ssh: bool, i: nat)
    requires i + 1 < |trace|
  {
    Next(trace[i], trace[i + 1], ssh)
  }

  ghost predicate IsRun(trace: seq<System>, ssh: bool) {
    && trace != []
    && Initial(trace[0])
    && forall i | 0 <= i < |trace| - 1 :: NextAt(trace, ssh, i)
  }

  // ----- Preservation -----

  lemma UndisturbedKeyFits(s: System, t: System, ssh: bool, k: Name)
    requires KeyFits(s, ssh, k) && Undisturbed(s.world, t.world, k)
    requires Key(t, k).log == Key(s, k).log
    requires k in t.calls <==> k in s.calls
    requires k in s.calls ==> t.calls[k] == s.calls[k]
    ensures KeyFits(t, ssh, k)
  {
    if k in s.calls {
      UndisturbedFits(s.world, t.world, ssh, k, s.calls[k]);
    }
    if Leased(s.world, ssh, k) {
      UndisturbedFits(s.world, t.world, ssh, k, Ensured(true));
    }
  }

  /** A lease step adds at most one event to the log, the next in the cycle. */
  lemma LogGrows(key: L.State, c: L.CallerId, a: L.Action)
    requires L.Invariant(key) && L.Enabled(key, c, a)
    ensures var t := L.Apply(key, c, a);
      && L.Invariant(t)
      && (t.log == key.log
          || (t.log != [] && t.log == key.log + [Last(t.log)] && L.Slot(Last(t.log)) == |key.log| % 4))
    ensures a.FinishEnsure? ==> Last(L.Apply(key, c, a).log) == L.EnsureEnd(a.ok)
    ensures a.FinishDelete? ==> Last(L.Apply(key, c, a).log) == L.DeleteEnd(a.ok)
    ensures !a.FinishEnsure? && !a.FinishDelete? ==>
      var t := L.Apply(key, c, a); t.log == key.log || Last(t.log).EnsureBegin? || Last(t.log).DeleteBegin?
  {
    var t := L.Apply(key, c, a);
    L.StepKeepsInvariant(key, c, a);
    if t.log != key.log {
      assert t.log == key.log + [Last(t.log)];
      assert L.Slot(t.log[|key.log|]) == |key.log| % 4;
    }
  }

  lemma BegunFits(s: System, k: Name, t: L.State, want: Want, ssh: bool)
    requires KeyFits(s, ssh, k)
    requires
      var log := Key(s, k).log;
      t.log == log || (t.log != [] && t.log == log + [Last(t.log)] && L.Slot(Last(t.log)) == |log| % 4
                       && (Last(t.log).EnsureBegin? || Last(t.log).DeleteBegin?))
    ensures KeyFits(Begun(s, k, t, want), ssh, k)
  {
    if t.log == Key(s, k).log {
      UndisturbedKeyFits(s, Begun(s, k, t, want), ssh, k);
    }
  }

  lemma LeaseMoveKeeps(s: System, k: Name, c: L.CallerId, a: L.Action, want: Want, ssh: bool)
    requires L.Invariant(Key(s, k)) && KeyFits(s, ssh, k) && Enabled(s, LeaseMove(k, c, a, want))
    ensures KeyFits(Apply(s, LeaseMove(k, c, a, want), ssh), ssh, k)
    ensures L.Invariant(L.Apply(Key(s, k), c, a))
  {
    LogGrows(Key(s, k), c, a);
    BegunFits(s, k, L.Apply(Key(s, k), c, a), want, ssh);
  }

  lemma CallMoveKeeps(s: System, k: Name, an: Answer, ssh: bool)
    requires KeyFits(s, ssh, k) && k in s.calls
    ensures KeyFits(Apply(s, CallMove(k, an), ssh), ssh, k)
  {
    StepFits(s.world, ssh, k, s.calls[k], an);
  }

  lemma ReturnedFits(s: System, k: Name, t: L.State, e: L.Event, ssh: bool)
    requires KeyFits(s, ssh, k) && k in s.calls && t.log == Key(s, k).log + [e]
    requires s.calls[k].Ensured? || s.calls[k].Deleted?
    requires e == if s.calls[k].Ensured? then L.EnsureEnd(s.calls[k].ok) else L.DeleteEnd(s.calls[k].ok)
    ensures KeyFits(s.(keys := s.keys[k := t], calls := s.calls - {k}), ssh, k)
  {
  }

  lemma ReturnMoveKeeps(s: System, k: Name, c: L.CallerId, ssh: bool)
    requires L.Invariant(Key(s, k)) && KeyFits(s, ssh, k) && Enabled(s, ReturnMove(k, c))
    ensures KeyFits(Apply(s, ReturnMove(k, c), ssh), ssh, k)
    ensures L.Invariant(L.Apply(Key(s, k), c, Return(s.calls[k])))
  {
    LogGrows(Key(s, k), c, Return(s.calls[k]));
    var t := L.Apply(Key(s, k), c, Return(s.calls[k]));
    ReturnedFits(s, k, t, Last(t.log), ssh);
  }

  predicate Concerns(m: Move, k: Name) {
    !m.Environment? && m.k == k
  }

  lemma OtherMoveUndisturbs(s: System, m: Move, ssh: bool, k: Name)
    requires Enabled(s, m) && (m.CallMove? ==> m.k != k)
    ensures Undisturbed(s.world, Apply(s, m, ssh).world, k)
  {
    if m.Environment? {
      HappeningUndisturbs(s.world, m.h, k);
    } else if m.CallMove? {
      OtherCallUndisturbs(s.world, ssh, m.k, s.calls[m.k], m.an, k);
    }
  }

  lemma OwnMoveKeepsKey(s: System, m: Move, ssh: bool, k: Name)
    requires L.Invariant(Key(s, k)) && KeyFits(s, ssh, k) && Enabled(s, m) && Concerns(m, k)
    ensures L.Invariant(Key(Apply(s, m, ssh), k)) && KeyFits(Apply(s, m, ssh), ssh, k)
  {
    if m.LeaseMove? {
      LeaseMoveKeeps(s, k, m.c, m.a, m.want, ssh);
    } else if m.CallMove? {
      CallMoveKeeps(s, k, m.an, ssh);
    } else {
      ReturnMoveKeeps(s, k, m.c, ssh);
    }
  }

  lemma OtherMoveKeepsKey(s: System, m: Move, ssh: bool, k: Name)
    requires L.Invariant(Key(s, k)) && KeyFits(s, ssh, k) && Enabled(s, m) && !Concerns(m, k)
    ensures L.Invariant(Key(Apply(s, m, ssh), k)) && KeyFits(Apply(s, m, ssh), ssh, k)
  {
    OtherMoveUndisturbs(s, m, ssh, k);
    UndisturbedKeyFits(s, Apply(s, m, ssh), ssh, k);
  }

  lemma MoveKeepsInvariant(s: System, m: Move, ssh: bool)
    requires Invariant(s, ssh) && Enabled(s, m)
    ensures Invariant(Apply(s, m, ssh), ssh)
  {
    forall k: Name ensures L.Invariant(Key(Apply(s, m, ssh), k)) && KeyFits(Apply(s, m, ssh), ssh, k) {
      assert L.Invariant(Key(s, k)) && KeyFits(s, ssh, k);
      if Concerns(m, k) {
        OwnMoveKeepsKey(s, m, ssh, k);
      } else {
        OtherMoveKeepsKey(s, m, ssh, k);
      }
    }
  }

  lemma InitialIsInvariant(s: System, ssh: bool)
    requires Initial(s)
    ensures Invariant(s, ssh)
  {
    L.InitIsInvariant();
  }

  lemma {:induction false} RunKeepsInvariant(trace: seq<System>, ssh: bool, i: nat)
    requires IsRun(trace, ssh) && i < |trace|
    ensures Invariant(trace[i], ssh)
  {
    if i == 0 {
      InitialIsInvariant(trace[0], ssh);
    } else {
      RunKeepsInvariant(trace, ssh, i - 1);
      assert NextAt(trace, ssh, i - 1);
      var m :| Enabled(trace[i - 1], m) && trace[i] == Apply(trace[i - 1], m, ssh);
      MoveKeepsInvariant(trace[i - 1], m, ssh);
    }
  }

  // ----- What a holder can count on -----

  /** acquireWorkspace has returned a release function to c, and c has not got to decrementing active. */
  predicate Holds(s: System, k: Name, c: L.CallerId) {
    c in Key(s, k).callers && L.Plays(Key(s, k).callers[c].pc, L.Counted)
  }

  /** The endpoint that OpenWorkspaceSSH looks up; it asks the API server nothing. */
  function LookUp(w: World, k: Name): Option<Endpoint> {
    if k in w.endpoints then Some(w.endpoints[k]) else None
  }

  lemma HeldIsLeased(s: System, ssh: bool, k: Name, c: L.CallerId)
    requires Invariant(s, ssh) && Holds(s, k, c)
    ensures Leased(s.world, ssh, k) && k !in s.calls
  {
    assert L.Invariant(Key(s, k)) && KeyFits(s, ssh, k);
    LeaseRuns.HolderMeansUp(Key(s, k), c);
  }

  /** At every point of its tenure a holder has a live pod and, for SSH, that pod's endpoint with that pod's own keys. */
  lemma HolderIsLeased(trace: seq<System>, ssh: bool, i: nat, k: Name, c: L.CallerId)
    requires IsRun(trace, ssh) && i < |trace| && Holds(trace[i], k, c)
    ensures k in trace[i].world.pods && !trace[i].world.pods[k].terminating && k !in trace[i].calls
    ensures ssh ==>
      var w := trace[i].world;
      var p, e := w.pods[k], LookUp(w, k);
      && e.Some? && p.address == Some(e.value.address)
      && p.secretRef in w.secrets && w.secrets[p.secretRef] == Secret(Some(p.uid), e.value.host, e.value.client)
    ensures Leased(trace[i].world, ssh, k)
  {
    RunKeepsInvariant(trace, ssh, i);
    HeldIsLeased(trace[i], ssh, k, c);
  }

  /** k's pod is the same live pod, with the same credentials and the same endpoint. */
  predicate SamePod(w: World, w': World, k: Name) {
    && k in w.pods && k in w'.pods
    && w'.pods[k].uid == w.pods[k].uid && w'.pods[k].secretRef == w.pods[k].secretRef
    && !w.pods[k].terminating && !w'.pods[k].terminating
    && LookUp(w', k) == LookUp(w, k)
  }

  lemma SamePodTwice(w: World, w': World, w'': World, k: Name)
    requires SamePod(w, w', k) && SamePod(w', w'', k)
    ensures SamePod(w, w'', k)
  {
  }

  lemma HeldStepKeepsPod(trace: seq<System>, ssh: bool, i: nat, k: Name, c: L.CallerId)
    requires IsRun(trace, ssh) && i + 1 < |trace| && Holds(trace[i], k, c)
    ensures SamePod(trace[i].world, trace[i + 1].world, k)
  {
    HolderIsLeased(trace, ssh, i, k, c);
    assert NextAt(trace, ssh, i);
    var m :| Enabled(trace[i], m) && trace[i + 1] == Apply(trace[i], m, ssh);
    OtherMoveUndisturbs(trace[i], m, ssh, k);
  }

  /** While one caller holds the key, whatever everyone else does, the pod and the endpoint stay the same. */
  lemma {:induction false} TenureKeepsPod(trace: seq<System>, ssh: bool, i: nat, j: nat, k: Name, c: L.CallerId)
    requires IsRun(trace, ssh) && i <= j < |trace|
    requires forall n | i <= n <= j :: Holds(trace[n], k, c)
    ensures SamePod(trace[i].world, trace[j].world, k)
    decreases j
  {
    assert Holds(trace[i], k, c);
    if i == j {
      assert SamePod(trace[i].world, trace[i].world, k) by { HolderIsLeased(trace, ssh, i, k, c); }
    } else {
      TenureKeepsPod(trace, ssh, i, j - 1, k, c);
      assert Holds(trace[j - 1], k, c);
      HeldStepKeepsPod(trace, ssh, j - 1, k, c);
      SamePodTwice(trace[i].world, trace[j - 1].world, trace[j].world, k);
    }
  }

  /** No caller of the key holds it or is in its gate. */
  predicate Idle(s: System, k: Name) {
    forall c <- Key(s, k).callers :: !L.Plays(Key(s, k).callers[c].pc, L.Insider) && !L.Plays(Key(s, k).callers[c].pc, L.Counted)
  }

  lemma IdleIsDown(s: System, ssh: bool, k: Name)
    requires Invariant(s, ssh) && Idle(s, k)
    ensures LookUp(s.world, k) == None && k !in s.calls
    ensures var log := Key(s, k).log; log != [] ==> Last(log).DeleteEnd? && (Last(log).ok ==> k !in s.world.pods)
  {
    var key := Key(s, k);
    assert L.Invariant(key) && KeyFits(s, ssh, k);
    LeaseRuns.IdleMeansDown(key);
    if key.log != [] {
      assert L.Slot(Last(key.log)) == (|key.log| - 1) % 4;
    }
  }

  /** With no holder and nobody in the gate, no endpoint outlives the lease ... */
  lemma IdleKeyHasNoEndpoint(trace: seq<System>, ssh: bool, i: nat, k: Name)
    requires IsRun(trace, ssh) && i < |trace| && Idle(trace[i], k)
    ensures LookUp(trace[i].world, k) == None && k !in trace[i].calls
  {
    RunKeepsInvariant(trace, ssh, i);
    IdleIsDown(trace[i], ssh, k);
  }

  /** ... and no pod, if the DeletePod of the last release returned without an error. */
  lemma IdleKeyHasNoPod(trace: seq<System>, ssh: bool, i: nat, k: Name)
    requires IsRun(trace, ssh) && i < |trace| && Idle(trace[i], k)
    ensures var log := Key(trace[i], k).log;
      log != [] ==> Last(log).DeleteEnd? && (Last(log).ok ==> k !in trace[i].world.pods)
  {
    RunKeepsInvariant(trace, ssh, i);
    IdleIsDown(trace[i], ssh, k);
  }

  /** When DeletePod returns without an error, the pod is not there; when EnsureWorkspace does, its pod is and is live. */
  lemma ReturnsAreTruthful(trace: seq<System>, ssh: bool, i: nat, k: Name, c: L.CallerId)
    requires IsRun(trace, ssh) && i < |trace| && Enabled(trace[i], ReturnMove(k, c))
    ensures trace[i].calls[k] == Deleted(true) ==> k !in trace[i].world.pods
    ensures trace[i].calls[k] == Ensured(true) ==> Leased(trace[i].world, ssh, k)
    ensures trace[i].calls[k] != Ensured(true) ==> LookUp(trace[i].world, k) == None
    ensures trace[i].calls[k].Ensured? <==> Key(trace[i], k).callers[c].pc.Ensuring?
  {
    RunKeepsInvariant(trace, ssh, i);
    assert KeyFits(trace[i], ssh, k) && L.Invariant(Key(trace[i], k));
  }

  // ----- UIDs -----

  predicate UidInvariant(s: System) {
    UidsFit(s.world) && forall k <- s.calls :: CallUidFits(s.world, s.calls[k])
  }

  lemma MoreUidsStillFit(s: System, t: System)
    requires UidInvariant(s) && UidsFit(t.world) && s.world.nextUid <= t.world.nextUid
    requires forall k <- t.calls :: CallUidFits(t.world, t.calls[k]) || (k in s.calls && t.calls[k] == s.calls[k])
    ensures UidInvariant(t)
  {
  }

  lemma MoveKeepsUids(s: System, m: Move, ssh: bool)
    requires UidInvariant(s) && Enabled(s, m)
    ensures UidInvariant(Apply(s, m, ssh)) && OnlyNewPods(s.world, Apply(s, m, ssh).world)
  {
    if m.CallMove? {
      StepKeepsUids(s.world, ssh, m.k, s.calls[m.k], m.an);
    } else if m.Environment? {
      HappeningKeepsUids(s.world, m.h);
    } else {
      assert Apply(s, m, ssh).world == s.world;
    }
    MoreUidsStillFit(s, Apply(s, m, ssh));
  }

  lemma {:induction false} RunKeepsUids(trace: seq<System>, ssh: bool, i: nat)
    requires IsRun(trace, ssh) && i < |trace|
    ensures UidInvariant(trace[i])
    ensures i > 0 ==> OnlyNewPods(trace[i - 1].world, trace[i].world)
  {
    if i > 0 {
      RunKeepsUids(trace, ssh, i - 1);
      assert NextAt(trace, ssh, i - 1);
      NextKeepsUids(trace[i - 1], trace[i], ssh);
    }
  }

  lemma NextKeepsUids(s: System, t: System, ssh: bool)
    requires UidInvariant(s) && Next(s, t, ssh)
    ensures UidInvariant(t) && OnlyNewPods(s.world, t.world)
  {
    var m :| Enabled(s, m) && t == Apply(s, m, ssh);
    MoveKeepsUids(s, m, ssh);
  }

  /** A UID belongs to one pod name and one secret name over the whole run, even when pods go and come back. */
  lemma {:induction false} UidNamesOnePod(trace: seq<System>, ssh: bool, i: nat, j: nat, k: Name, n: Name)
    requires IsRun(trace, ssh) && i <= j < |trace|
    requires k in trace[i].world.pods && n in trace[j].world.pods && trace[j].world.pods[n].uid == trace[i].world.pods[k].uid
    ensures n == k && trace[j].world.pods[n].secretRef == trace[i].world.pods[k].secretRef
    decreases j
  {
    RunKeepsUids(trace, ssh, i);
    RunKeepsUids(trace, ssh, j);
    if i < j {
      UidsGiven(trace, ssh, i, j - 1);
      UidNamesOnePod(trace, ssh, i, j - 1, k, n);
    }
  }

  lemma {:induction false} UidsGiven(trace: seq<System>, ssh: bool, i: nat, j: nat)
    requires IsRun(trace, ssh) && i <= j < |trace|
    ensures trace[i].world.nextUid <= trace[j].world.nextUid
    decreases j
  {
    if i < j {
      RunKeepsUids(trace, ssh, j);
      UidsGiven(trace, ssh, i, j - 1);
    }
  }

  /** So the secret that a holder's endpoint was made from is owned by the holder's pod and by no other. */
  lemma HolderOwnsItsSecret(trace: seq<System>, i: nat, k: Name, c: L.CallerId, j: Name)
    requires IsRun(trace, true) && i < |trace| && Holds(trace[i], k, c) && j in trace[i].world.pods
    ensures var w := trace[i].world;
      k in w.pods && w.pods[k].secretRef in w.secrets && (w.secrets[w.pods[k].secretRef].owner == Some(w.pods[j].uid) <==> j == k)
  {
    HolderIsLeased(trace, true, i, k, c);
    RunKeepsUids(trace, true, i);
  }

  // ----- Claims -----

  /** The PVC of a workspace that was ensured in persistent mode. */
  ghost predicate Wanted(s: System, claim: Name) {
    exists id :: id in s.persistent && claim == Naming.PVCName(id)
  }

  ghost predicate ClaimsFit(s: System, before: set<Name>) {
    && (forall claim <- s.world.pvcs :: claim in before || Wanted(s, claim))
    && forall k <- s.calls :: forall claim <- ClaimOf(s.calls[k]) :: Wanted(s, claim)
  }

  lemma MoveKeepsClaims(s: System, m: Move, ssh: bool, before: set<Name>)
    requires Enabled(s, m) && ClaimsFit(s, before)
    ensures var t := Apply(s, m, ssh); s.world.pvcs <= t.world.pvcs && s.persistent <= t.persistent && ClaimsFit(t, before)
  {
    var t := Apply(s, m, ssh);
    if m.CallMove? {
      StepKeepsClaims(s.world, ssh, m.k, s.calls[m.k], m.an);
    }
    assert s.persistent <= t.persistent;
    forall claim | Wanted(s, claim) ensures Wanted(t, claim) {
      var id :| id in s.persistent && claim == Naming.PVCName(id);
      assert id in t.persistent;
    }
    if m.LeaseMove? && m.want.mode.Persistent? && m.want.workspace in t.persistent {
      assert Wanted(t, Naming.PVCName(m.want.workspace));
    }
  }

  // ----- A persistent holder's PVC -----

  /** EnsureWorkspace for a persistent workspace gets past its PVC only with the PVC there, and it stays. */
  predicate ClaimHeld(s: System, k: Name) {
    var log, claim := Key(s, k).log, Naming.ClaimFor(k);
    claim.Some? ==>
      match |log| % 4
      case 1 => k in s.calls ==> ClaimDue(s.world, s.calls[k], claim.value)
      case 2 => Last(log) == L.EnsureEnd(true) ==> claim.value in s.world.pvcs
      case _ => true
  }

  lemma SameCallKeepsClaimHeld(s: System, t: System, k: Name)
    requires ClaimHeld(s, k) && s.world.pvcs <= t.world.pvcs && Key(t, k).log == Key(s, k).log
    requires k in t.calls ==> k in s.calls && t.calls[k] == s.calls[k]
    ensures ClaimHeld(t, k)
  {
  }

  lemma BegunHoldsClaim(s: System, k: Name, t: L.State, want: Want)
    requires ClaimHeld(s, k) && Naming.EndsInHex(want.workspace) && k == Naming.PodName(want.workspace, want.mode)
    requires
      var log := Key(s, k).log;
      t.log == log || (t.log != [] && t.log == log + [Last(t.log)] && L.Slot(Last(t.log)) == |log| % 4
                       && (Last(t.log).EnsureBegin? || Last(t.log).DeleteBegin?))
    ensures ClaimHeld(Begun(s, k, t, want), k)
  {
    Naming.ClaimForIsTheWorkspaces(want.workspace, want.mode);
    if t.log == Key(s, k).log {
      SameCallKeepsClaimHeld(s, Begun(s, k, t, want), k);
    }
  }

  lemma ReturnedHoldsClaim(s: System, k: Name, t: L.State, e: L.Event)
    requires ClaimHeld(s, k) && k in s.calls && t.log == Key(s, k).log + [e]
    requires s.calls[k].Ensured? || s.calls[k].Deleted?
    requires e == if s.calls[k].Ensured? then L.EnsureEnd(s.calls[k].ok) else L.DeleteEnd(s.calls[k].ok)
    requires L.Slot(e) == |Key(s, k).log| % 4
    ensures ClaimHeld(s.(keys := s.keys[k := t], calls := s.calls - {k}), k)
  {
  }

  lemma OwnMoveHoldsClaim(s: System, m: Move, ssh: bool, k: Name)
    requires L.Invariant(Key(s, k)) && KeyFits(s, ssh, k) && ClaimHeld(s, k) && Enabled(s, m) && Concerns(m, k)
    ensures ClaimHeld(Apply(s, m, ssh), k)
  {
    if m.LeaseMove? {
      LogGrows(Key(s, k), m.c, m.a);
      BegunHoldsClaim(s, k, L.Apply(Key(s, k), m.c, m.a), m.want);
    } else if m.CallMove? {
      if Naming.ClaimFor(k).Some? && |Key(s, k).log| % 4 == 1 {
        StepKeepsClaimDue(s.world, ssh, k, s.calls[k], m.an, Naming.ClaimFor(k).value);
      }
      StepKeepsClaims(s.world, ssh, k, s.calls[k], m.an);
    } else {
      var a := Return(s.calls[k]);
      LogGrows(Key(s, k), m.c, a);
      var t := L.Apply(Key(s, k), m.c, a);
      ReturnedHoldsClaim(s, k, t, Last(t.log));
    }
  }

  lemma OtherMoveHoldsClaim(s: System, m: Move, ssh: bool, k: Name)
    requires ClaimHeld(s, k) && Enabled(s, m) && !Concerns(m, k)
    ensures ClaimHeld(Apply(s, m, ssh), k)
  {
    if m.CallMove? {
      StepKeepsClaims(s.world, ssh, m.k, s.calls[m.k], m.an);
    }
    SameCallKeepsClaimHeld(s, Apply(s, m, ssh), k);
  }

  lemma {:induction false} RunHoldsClaim(trace: seq<System>, ssh: bool, i: nat, k: Name)
    requires IsRun(trace, ssh) && i < |trace|
    ensures ClaimHeld(trace[i], k)
  {
    if i > 0 {
      RunHoldsClaim(trace, ssh, i - 1, k);
      RunKeepsInvariant(trace, ssh, i - 1);
      assert NextAt(trace, ssh, i - 1);
      NextHoldsClaim(trace[i - 1], trace[i], ssh, k);
    }
  }

  lemma NextHoldsClaim(s: System, t: System, ssh: bool, k: Name)
    requires Invariant(s, ssh) && ClaimHeld(s, k) && Next(s, t, ssh)
    ensures ClaimHeld(t, k)
  {
    var m :| Enabled(s, m) && t == Apply(s, m, ssh);
    assert L.Invariant(Key(s, k)) && KeyFits(s, ssh, k);
    if Concerns(m, k) {
      OwnMoveHoldsClaim(s, m, ssh, k);
    } else {
      OtherMoveHoldsClaim(s, m, ssh, k);
    }
  }

  /** At every point of its tenure the holder of a persistent workspace has the workspace's own home PVC. */
  lemma PersistentHolderHasItsHome(trace: seq<System>, ssh: bool, i: nat, workspace: string, c: L.CallerId)
    requires IsRun(trace, ssh) && i < |trace| && Naming.EndsInHex(workspace)
    requires Holds(trace[i], Naming.PodName(workspace, Persistent), c)
    ensures Naming.PVCName(workspace) in trace[i].world.pvcs
  {
    var k := Naming.PodName(workspace, Persistent);
    RunKeepsInvariant(trace, ssh, i);
    assert L.Invariant(Key(trace[i], k));
    LeaseRuns.HolderMeansUp(Key(trace[i], k), c);
    RunHoldsClaim(trace, ssh, i, k);
    Naming.ClaimForIsTheWorkspaces(workspace, Persistent);
  }

  /** Over any run PVCs are only added, and only the home PVCs of workspaces that were ensured in persistent mode. */
  lemma {:induction false} ClaimsOnlyGrow(trace: seq<System>, ssh: bool, i: nat, j: nat)
    requires IsRun(trace, ssh) && i <= j < |trace|
    ensures trace[i].world.pvcs <= trace[j].world.pvcs
    ensures forall claim <- trace[j].world.pvcs :: claim in trace[0].world.pvcs || Wanted(trace[j], claim)
    ensures ClaimsFit(trace[j], trace[0].world.pvcs)
    decreases j
  {
    if j > 0 {
      ClaimsOnlyGrow(trace, ssh, if i == j then i - 1 else i, j - 1);
      assert NextAt(trace, ssh, j - 1);
      var m :| Enabled(trace[j - 1], m) && trace[j] == Apply(trace[j - 1], m, ssh);
      MoveKeepsClaims(trace[j - 1], m, ssh, trace[0].world.pvcs);
    }
  }
}
