/**
 The whole coordinator over the cluster: Serve with its connections, handlers and leases (service.dfy), their lifecycle
 calls in flight, and the API server (tenure.dfy). The leases are the same in both.
 */
module Coordinator {
  import opened Base
  import L = LeaseMachine
  import S = Service
  import T = Tenure
  import Cluster
  import Naming
  import Sessions

  datatype State = State(service: S.State, calls: map<Cluster.Name, Cluster.Call>, world: Cluster.World, persistent: set<string>)

  /** A step of the server, for the workspace that its handler wants; of a lifecycle call; of the environment. */
  datatype Step =
    | Serve(x: S.Step, want: T.Want)
    | Call(k: Cluster.Name, an: Cluster.Answer)
    | World(h: Cluster.Happening)

  /** The leases, their calls and the cluster. */
  function Sys(s: State): T.System {
    T.System(s.service.leases, s.calls, s.world, s.persistent)
  }

  /** The handler and the lease action of a step of the server, if it has one. */
  function LeaseStepOf(s: S.State, x: S.Step): Option<(S.Id, L.Action)> {
    match x
    case Handle(h, act) =>
      if h !in s.handlers then None else
        var a := S.LeaseAction(s.handlers[h], act);
        if a.Some? then Some((h, a.value)) else None
    case LeaseStep(h, a) => Some((h, a))
    case Frame(_) => None
    case OpenChannel(_, _, _, _) => None
  }

  /** A lifecycle call returns when it has its result; every other lease action is the caller's alone. */
  function MoveFor(k: Cluster.Name, h: S.Id, a: L.Action, want: T.Want): T.Move {
    if a.FinishEnsure? || a.FinishDelete? then T.ReturnMove(k, h) else T.LeaseMove(k, h, a, want)
  }

  predicate ServeReady(s: State, x: S.Step, want: T.Want) {
    && S.Enabled(s.service, x)
    && var step := LeaseStepOf(s.service, x);
       step.Some? ==>
         var (h, a) := step.value;
         && h in s.service.handlers
         && var k := s.service.handlers[h].key;
            && T.Enabled(Sys(s), MoveFor(k, h, a, want))
            && (a.FinishEnsure? || a.FinishDelete? ==> T.Return(s.calls[k]) == a)
  }

  /**
   The cluster holds the server up only where a lifecycle call has not come to its result, and lets it return with that
   result only; otherwise every statement of the server can run, for the handler's own workspace.
   */
  lemma ServeIsHeldUpOnlyByItsCalls(s: State, x: S.Step, want: T.Want, ssh: bool)
    requires Invariant(s, ssh) && S.Enabled(s.service, x)
    ensures ServeReady(s, x, want) <==>
      var l := LeaseStepOf(s.service, x);
      l.Some? ==>
        var (h, a) := l.value;
        h in s.service.handlers &&
        var k := s.service.handlers[h].key;
        if a.FinishEnsure? then k in s.calls && s.calls[k] == Cluster.Ensured(a.ok)
        else if a.FinishDelete? then k in s.calls && s.calls[k] == Cluster.Deleted(a.ok)
        else Naming.EndsInHex(want.workspace) && k == Naming.PodName(want.workspace, want.mode)
  {
    ServeLeases(s.service, x);
    var l := LeaseStepOf(s.service, x);
    if l.Some? {
      MoveIsHeldUpOnlyByItsCall(s, l.value.0, l.value.1, want);
    }
  }

  lemma MoveIsHeldUpOnlyByItsCall(s: State, h: S.Id, a: L.Action, want: T.Want)
    requires h in s.service.handlers && S.LeaseEnabled(s.service, h, a)
    ensures var k := s.service.handlers[h].key;
      T.Enabled(Sys(s), MoveFor(k, h, a, want)) && (a.FinishEnsure? || a.FinishDelete? ==> T.Return(s.calls[k]) == a) <==>
        if a.FinishEnsure? then k in s.calls && s.calls[k] == Cluster.Ensured(a.ok)
        else if a.FinishDelete? then k in s.calls && s.calls[k] == Cluster.Deleted(a.ok)
        else Naming.EndsInHex(want.workspace) && k == Naming.PodName(want.workspace, want.mode)
  {
    var k := s.service.handlers[h].key;
    assert T.Key(Sys(s), k) == S.KeyOf(s.service, k);
  }

  predicate Enabled(s: State, step: Step) {
    match step
    case Serve(x, want) => ServeReady(s, x, want)
    case Call(k, _) => k in s.calls
    case World(_) => true
  }

  /** What the step is to the leases and the cluster. */
  function MoveOf(s: State, step: Step): Option<T.Move> {
    match step
    case Serve(x, want) =>
      var l := LeaseStepOf(s.service, x);
      if l.Some? && l.value.0 in s.service.handlers then
        Some(MoveFor(s.service.handlers[l.value.0].key, l.value.0, l.value.1, want))
      else None
    case Call(k, an) => Some(T.CallMove(k, an))
    case World(h) => Some(T.Environment(h))
  }

  function Apply(s: State, step: Step, ssh: bool): State
    requires S.WellFormed(s.service) && Enabled(s, step)
  {
    var m := MoveOf(s, step);
    var t := if m.Some? then T.Apply(Sys(s), m.value, ssh) else Sys(s);
    State(if step.Serve? then S.Apply(s.service, step.x) else s.service, t.calls, t.world, t.persistent)
  }

  // ----- The two views agree -----

  /** Where the server and the leases over the cluster move together, they leave the same leases. */
  lemma StepAgrees(s: State, step: Step, ssh: bool)
    requires S.WellFormed(s.service) && Enabled(s, step)
    ensures var m := MoveOf(s, step);
      Sys(Apply(s, step, ssh)) == if m.Some? then T.Apply(Sys(s), m.value, ssh) else Sys(s)
  {
    if step.Serve? {
      ServeLeases(s.service, step.x);
      var l := LeaseStepOf(s.service, step.x);
      if l.Some? {
        MoveLeases(s, l.value.0, l.value.1, step.want, ssh);
      }
    }
  }

  lemma ServeLeases(s: S.State, x: S.Step)
    requires S.WellFormed(s) && S.Enabled(s, x)
    ensures var l := LeaseStepOf(s, x);
      if l.Some? then l.value.0 in s.handlers && S.LeaseEnabled(s, l.value.0, l.value.1)
                      && S.Apply(s, x).leases == S.WithLease(s, l.value.0, l.value.1).leases
      else S.Apply(s, x).leases == s.leases
  {
  }

  lemma MoveLeases(s: State, h: S.Id, a: L.Action, want: T.Want, ssh: bool)
    requires h in s.service.handlers && S.LeaseEnabled(s.service, h, a)
    requires var k := s.service.handlers[h].key;
      && T.Enabled(Sys(s), MoveFor(k, h, a, want))
      && (a.FinishEnsure? || a.FinishDelete? ==> T.Return(s.calls[k]) == a)
    ensures T.Apply(Sys(s), MoveFor(s.service.handlers[h].key, h, a, want), ssh).keys == S.WithLease(s.service, h, a).leases
  {
    var k := s.service.handlers[h].key;
    assert T.Key(Sys(s), k) == S.KeyOf(s.service, k);
  }

  ghost predicate Invariant(s: State, ssh: bool) {
    S.Invariant(s.service) && T.Invariant(Sys(s), ssh)
  }

  lemma StepKeepsInvariant(s: State, step: Step, ssh: bool)
    requires Invariant(s, ssh) && Enabled(s, step)
    ensures Invariant(Apply(s, step, ssh), ssh)
  {
    StepAgrees(s, step, ssh);
    var m := MoveOf(s, step);
    if m.Some? {
      T.MoveKeepsInvariant(Sys(s), m.value, ssh);
    }
    if step.Serve? {
      S.StepKeepsInvariant(s.service, step.x);
    }
  }

  /** Any schedule of steps, from a server that has just begun to serve over some cluster. */
  function Run(world: Cluster.World, ssh: bool, xs: seq<Step>): State {
    if xs == [] then State(S.INIT, map[], world, {}) else
      var s := Run(world, ssh, xs[..|xs| - 1]);
      if S.WellFormed(s.service) && Enabled(s, Last(xs)) then Apply(s, Last(xs), ssh) else s
  }

  lemma {:induction false} RunKeepsInvariant(world: Cluster.World, ssh: bool, xs: seq<Step>)
    requires world.endpoints == map[] && Cluster.UidsFit(world)
    ensures Invariant(Run(world, ssh, xs), ssh)
  {
    if xs == [] {
      T.InitialIsInvariant(Sys(Run(world, ssh, xs)), ssh);
    } else {
      RunKeepsInvariant(world, ssh, xs[..|xs| - 1]);
      var s := Run(world, ssh, xs[..|xs| - 1]);
      if S.WellFormed(s.service) && Enabled(s, Last(xs)) {
        StepKeepsInvariant(s, Last(xs), ssh);
      }
    }
  }

  // ----- What channels can count on -----

  /**
   While a session or a forwarding channel works, whatever all other channels, lifecycle calls and the cluster do, its
   workspace's pod is there and not marked for deletion and, for SSH, its look-up finds that pod's endpoint.
   */
  lemma WorkingIsLeased(world: Cluster.World, ssh: bool, xs: seq<Step>, h: S.Id)
    requires world.endpoints == map[] && Cluster.UidsFit(world)
    requires var handlers := Run(world, ssh, xs).service.handlers;
      h in handlers && (handlers[h].stage.Working? || handlers[h].stage.Draining?)
    ensures var s := Run(world, ssh, xs);
      var k := s.service.handlers[h].key;
      && Cluster.Leased(s.world, ssh, k) && k !in s.calls
      && (ssh ==> T.LookUp(s.world, k).Some? && s.world.pods[k].address == Some(T.LookUp(s.world, k).value.address))
  {
    RunKeepsInvariant(world, ssh, xs);
    var s := Run(world, ssh, xs);
    var k := s.service.handlers[h].key;
    assert S.HandlerFits(s.service.handlers[h], S.CallerOf(s.service, h));
    assert T.Key(Sys(s), k) == S.KeyOf(s.service, k);
    T.HeldIsLeased(Sys(s), ssh, k, h);
  }

  /**
   When Serve has returned, no lifecycle call is in flight, no endpoint is left for any key, and no pod for a key whose last
   DeletePod succeeded.
   */
  lemma ServeLeavesNothing(world: Cluster.World, ssh: bool, xs: seq<Step>, k: Cluster.Name)
    requires world.endpoints == map[] && Cluster.UidsFit(world)
    requires Run(world, ssh, xs).service.returned
    ensures var s := Run(world, ssh, xs);
      && k !in s.calls && T.LookUp(s.world, k) == None
      && (k in s.service.leases && s.service.leases[k].log != [] ==>
            Last(s.service.leases[k].log).DeleteEnd? && (Last(s.service.leases[k].log).ok ==> k !in s.world.pods))
  {
    RunKeepsInvariant(world, ssh, xs);
    ReturnedMeansDown(Run(world, ssh, xs), ssh, k);
  }

  lemma ReturnedMeansDown(s: State, ssh: bool, k: Cluster.Name)
    requires Invariant(s, ssh) && s.service.returned
    ensures k !in s.calls && T.LookUp(s.world, k) == None
    ensures var log := T.Key(Sys(s), k).log; log != [] ==> Last(log).DeleteEnd? && (Last(log).ok ==> k !in s.world.pods)
  {
    S.ReturnedMeansClean(s.service);
    assert T.Idle(Sys(s), k);
    T.IdleIsDown(Sys(s), ssh, k);
  }

  /** What a proxied session sends, as a method over its lease, is a report that its handler can make here. */
  lemma ProxyReportsAgree(v: S.Handler, caller: Option<L.Caller>, backend: Sessions.Backend, cancelled: bool)
    requires v.kind.ProxySession? && v.stage.Reporting? && v.acquired && (v.normal <==> backend.Ended?)
    ensures var exits := Sessions.ProxyExits(backend, cancelled);
      && S.ActReady(v, caller, S.Report(exits != []))
      && S.HandlerAfter(v, caller, S.Report(exits != [])).exits == v.exits + |exits|
  {
    Sessions.OneExitAtMost(backend, cancelled);
  }
}
