/** Folding a schedule, slot by slot. */
module Schedules {
  function Fold<S, X>(f: (S, X) -> S, s: S, xs: seq<X>, from: nat, to: nat): S
    requires from <= to <= |xs|
  {
    if from == to then s else f(Fold(f, s, xs, from, to - 1), xs[to - 1])
  }

  lemma {:induction false} FoldInTwo<S, X>(f: (S, X) -> S, s: S, xs: seq<X>, from: nat, mid: nat, to: nat)
    requires from <= mid <= to <= |xs|
    ensures Fold(f, Fold(f, s, xs, from, mid), xs, mid, to) == Fold(f, s, xs, from, to)
  {
    if mid < to {
      FoldInTwo(f, s, xs, from, mid, to - 1);
    }
  }
}

/**
 The Manager as an object over the API server, with the loops of the source (internal/k8s/lifecycle.go,
 internal/k8s/ssh.go), proved to run the call programs of Cluster whatever the environment does meanwhile.
 */
module ClusterManager {
  import opened Base
  import opened Cluster
  import opened Schedules

  /** What happens before one request or wait, and how it is answered. */
  datatype Slot = Slot(before: seq<Happening>, answer: Answer)

  datatype Progress = Progress(world: World, at: Call)

  function AfterAll(w: World, hs: seq<Happening>): World {
    if hs == [] then w else After(AfterAll(w, hs[..|hs| - 1]), Last(hs))
  }

  /** One slot of a call for k; a call that has its result stays there. */
  function Take(ssh: bool, k: Name, p: Progress, slot: Slot): Progress {
    var (w, at) := CallStep(AfterAll(p.world, slot.before), ssh, k, p.at, slot.answer);
    Progress(w, at)
  }

  function Program(ssh: bool, k: Name): (Progress, Slot) -> Progress {
    (p, slot) => Take(ssh, k, p, slot)
  }

  /** The call after slots from..to of the schedule. */
  function RunCall(ssh: bool, k: Name, p: Progress, schedule: seq<Slot>, from: nat, to: nat): Progress
    requires from <= to <= |schedule|
  {
    Fold(Program(ssh, k), p, schedule, from, to)
  }

  lemma TakeFits(ssh: bool, k: Name, p: Progress, slot: Slot)
    requires PodFits(p.world, ssh, k, p.at)
    ensures var q := Take(ssh, k, p, slot);
      PodFits(q.world, ssh, k, q.at) && (EndpointFits(p.world, ssh, k, p.at) ==> EndpointFits(q.world, ssh, k, q.at))
  {
    AfterAllFits(p.world, slot.before, ssh, k, p.at);
    StepFits(AfterAll(p.world, slot.before), ssh, k, p.at, slot.answer);
  }

  lemma {:induction false} AfterAllFits(w: World, hs: seq<Happening>, ssh: bool, k: Name, call: Call)
    requires PodFits(w, ssh, k, call)
    ensures PodFits(AfterAll(w, hs), ssh, k, call)
    ensures EndpointFits(w, ssh, k, call) ==> EndpointFits(AfterAll(w, hs), ssh, k, call)
  {
    if hs != [] {
      var w' := AfterAll(w, hs[..|hs| - 1]);
      AfterAllFits(w, hs[..|hs| - 1], ssh, k, call);
      HappeningUndisturbs(w', Last(hs), k);
      UndisturbedFits(w', After(w', Last(hs)), ssh, k, call);
    }
  }

  /** A call keeps what it may rely on; if the key had no endpoint when it began, it has one only as it should. */
  lemma {:induction false} RunCallFits(ssh: bool, k: Name, p: Progress, schedule: seq<Slot>, from: nat, to: nat)
    requires from <= to <= |schedule| && PodFits(p.world, ssh, k, p.at)
    ensures var q := RunCall(ssh, k, p, schedule, from, to);
      PodFits(q.world, ssh, k, q.at) && (EndpointFits(p.world, ssh, k, p.at) ==> EndpointFits(q.world, ssh, k, q.at))
  {
    if from < to {
      RunCallFits(ssh, k, p, schedule, from, to - 1);
      TakeFits(ssh, k, RunCall(ssh, k, p, schedule, from, to - 1), schedule[to - 1]);
    }
  }

  lemma {:induction false} AfterAllKeepsDoom(w: World, hs: seq<Happening>, k: Name)
    requires Doomed(w, k)
    ensures Doomed(AfterAll(w, hs), k)
  {
    if hs != [] {
      AfterAllKeepsDoom(w, hs[..|hs| - 1], k);
      HappeningUndisturbs(AfterAll(w, hs[..|hs| - 1]), Last(hs), k);
    }
  }

  predicate PastDeletion(at: Call) {
    at.GetDeletedPod? || at.AwaitDeletion? || at.Deleted?
  }

  lemma TakeKeepsDoom(ssh: bool, k: Name, p: Progress, slot: Slot)
    requires Doomed(p.world, k) && PastDeletion(p.at)
    ensures Doomed(Take(ssh, k, p, slot).world, k) && PastDeletion(Take(ssh, k, p, slot).at)
  {
    AfterAllKeepsDoom(p.world, slot.before, k);
  }

  /** Once DeletePod has marked the pod, it stays marked or is gone, however the call ends. */
  lemma {:induction false} DoomSticks(ssh: bool, k: Name, p: Progress, schedule: seq<Slot>, from: nat, to: nat)
    requires from <= to <= |schedule| && Doomed(p.world, k) && PastDeletion(p.at)
    ensures var q := RunCall(ssh, k, p, schedule, from, to); Doomed(q.world, k) && PastDeletion(q.at)
  {
    if from < to {
      DoomSticks(ssh, k, p, schedule, from, to - 1);
      TakeKeepsDoom(ssh, k, RunCall(ssh, k, p, schedule, from, to - 1), schedule[to - 1]);
    }
  }

  lemma {:induction false} AfterAllKeepsClaims(w: World, hs: seq<Happening>)
    ensures AfterAll(w, hs).pvcs == w.pvcs
  {
    if hs != [] {
      AfterAllKeepsClaims(w, hs[..|hs| - 1]);
    }
  }

  lemma {:induction false} RunCallKeepsClaims(ssh: bool, k: Name, p: Progress, schedule: seq<Slot>, from: nat, to: nat)
    requires from <= to <= |schedule|
    ensures p.world.pvcs <= RunCall(ssh, k, p, schedule, from, to).world.pvcs
  {
    if from < to {
      RunCallKeepsClaims(ssh, k, p, schedule, from, to - 1);
      var q, slot := RunCall(ssh, k, p, schedule, from, to - 1), schedule[to - 1];
      AfterAllKeepsClaims(q.world, slot.before);
      StepKeepsClaims(AfterAll(q.world, slot.before), ssh, k, q.at, slot.answer);
    }
  }

  /** The pod runs and its workspace container is ready. */
  predicate ReadyAt(w: World, k: Name) {
    k in w.pods && w.pods[k].phase.Running? && w.pods[k].ready
  }

  /** Points of EnsureWorkspace that lie behind waitForPodReady. */
  predicate PastReady(at: Call) {
    at.GetPodForEndpoint? || at.GetSecretForEndpoint? || at == Ensured(true)
  }

  /** At some slot of the call waitForPodReady looked, and the pod was ready. */
  ghost predicate SawReady(ssh: bool, k: Name, p: Progress, schedule: seq<Slot>, from: nat, to: nat)
    requires from <= to <= |schedule|
  {
    exists m | from <= m < to :: ReadySlot(ssh, k, p, schedule, from, m)
  }

  predicate ReadySlot(ssh: bool, k: Name, p: Progress, schedule: seq<Slot>, from: nat, m: nat)
    requires from <= m < |schedule|
  {
    RunCall(ssh, k, p, schedule, from, m).at.GetReadiness? && ReadyAt(RunCall(ssh, k, p, schedule, from, m + 1).world, k)
  }

  lemma TakePastReady(ssh: bool, k: Name, p: Progress, slot: Slot)
    requires !PastReady(p.at) && PastReady(Take(ssh, k, p, slot).at)
    ensures p.at.GetReadiness? && ReadyAt(Take(ssh, k, p, slot).world, k)
  {
  }

  /** No call gets behind waitForPodReady without finding the pod ready. */
  lemma {:induction false} ReadyWasSeen(ssh: bool, k: Name, p: Progress, schedule: seq<Slot>, from: nat, to: nat)
    requires from <= to <= |schedule| && !PastReady(p.at) && PastReady(RunCall(ssh, k, p, schedule, from, to).at)
    ensures SawReady(ssh, k, p, schedule, from, to)
  {
    var q := RunCall(ssh, k, p, schedule, from, to - 1);
    if PastReady(q.at) {
      ReadyWasSeen(ssh, k, p, schedule, from, to - 1);
      var m :| from <= m < to - 1 && ReadySlot(ssh, k, p, schedule, from, m);
    } else {
      TakePastReady(ssh, k, q, schedule[to - 1]);
      assert ReadySlot(ssh, k, p, schedule, from, to - 1);
    }
  }

  /**
   On every schedule: a nil result of EnsureWorkspace means a live pod that was seen ready and, for SSH, the pod's own
   endpoint. A key without an endpoint gets one by no other way.
   */
  lemma EnsuredMeansUp(ssh: bool, k: Name, p: Progress, schedule: seq<Slot>, from: nat, to: nat)
    requires from <= to <= |schedule| && (p.at.GetClaim? || p.at.GetPod?)
    ensures var q := RunCall(ssh, k, p, schedule, from, to);
      && (q.at == Ensured(true) ==>
            Live(q.world, ssh, k) && (ssh ==> EndpointIsPods(q.world, k)) && SawReady(ssh, k, p, schedule, from, to))
      && (k !in p.world.endpoints && k in q.world.endpoints ==> q.at == Ensured(true) && ssh)
  {
    RunCallFits(ssh, k, p, schedule, from, to);
    if RunCall(ssh, k, p, schedule, from, to).at == Ensured(true) {
      ReadyWasSeen(ssh, k, p, schedule, from, to);
    }
  }

  lemma OneMore(ssh: bool, k: Name, start: Progress, schedule: seq<Slot>, from: nat, n: nat, p: Progress, q: Progress)
    requires from <= n < |schedule|
    requires p == RunCall(ssh, k, start, schedule, from, n) && q == Take(ssh, k, p, schedule[n])
    ensures q == RunCall(ssh, k, start, schedule, from, n + 1)
  {
  }

  datatype Reply<+T> = Found(value: T) | NotFound | AlreadyExists | Error

  class Manager {
    const ssh: bool
    var pods: map<Name, Pod>
    var secrets: map<Name, Secret>
    var pvcs: set<Name>
    var nextUid: Uid
    var endpoints: map<Name, Endpoint>

    constructor (ssh: bool, w: World)
      ensures View() == w && this.ssh == ssh
    {
      this.ssh := ssh;
      pods, secrets, pvcs, nextUid, endpoints := w.pods, w.secrets, w.pvcs, w.nextUid, w.endpoints;
    }

    function View(): World
      reads this
    {
      World(pods, secrets, pvcs, nextUid, endpoints)
    }

    // ----- The API server -----

    method Elapse(hs: seq<Happening>)
      modifies this
      ensures View() == AfterAll(old(View()), hs)
    {
      for i := 0 to |hs|
        invariant View() == AfterAll(old(View()), hs[..i])
      {
        assert hs[..i + 1][..i] == hs[..i];
        var w := After(View(), hs[i]);
        pods, secrets, pvcs, nextUid, endpoints := w.pods, w.secrets, w.pvcs, w.nextUid, w.endpoints;
      }
      assert hs[..|hs|] == hs;
    }

    /** Where the call for k is after slots from..n of the schedule, having started at `start`. */
    twostate predicate Reached(k: Name, start: Call, schedule: seq<Slot>, from: nat, n: nat, at: Call)
      reads this
    {
      from <= n <= |schedule| && Progress(View(), at) == RunCall(ssh, k, Progress(old(View()), start), schedule, from, n)
    }

    // ----- DeletePod -----

    method Evict(k: Name, slot: Slot)
      modifies this
      ensures Progress(View(), DeleteRequest) == Take(ssh, k, Progress(old(View()), EvictEndpoint), slot)
    {
      Elapse(slot.before);
      endpoints := endpoints - {k};
    }

    method RequestDeletion(k: Name, slot: Slot) returns (reply: Reply<()>)
      modifies this
      ensures Progress(View(), if reply.Found? then GetDeletedPod else Deleted(reply.NotFound?))
        == Take(ssh, k, Progress(old(View()), DeleteRequest), slot)
      ensures reply.Error? <==> slot.answer.fail
      ensures !slot.answer.fail || slot.answer.applied ==> k !in pods || pods[k].terminating
    {
      Elapse(slot.before);
      var an := slot.answer;
      reply := if an.fail then Error else if k in pods then Found(()) else NotFound;
      if (!an.fail || an.applied) && k in pods {
        pods := if an.immediate then pods - {k} else pods[k := pods[k].(terminating := true)];
      }
    }

    method LookForDeletedPod(k: Name, slot: Slot) returns (reply: Reply<Pod>)
      modifies this
      ensures Progress(View(), if reply.Found? then AwaitDeletion else Deleted(reply.NotFound?))
        == Take(ssh, k, Progress(old(View()), GetDeletedPod), slot)
      ensures reply.NotFound? ==> k !in pods
    {
      Elapse(slot.before);
      reply := if slot.answer.fail then Error else if k in pods then Found(pods[k]) else NotFound;
    }

    method Wait(k: Name, slot: Slot, ghost at: Call) returns (expired: bool)
      requires at in {AwaitDeletion, AwaitTermination, AwaitReadiness}
      modifies this
      ensures expired == slot.answer.fail
      ensures Progress(View(), match at
                               case AwaitDeletion => if expired then Deleted(false) else GetDeletedPod
                               case AwaitTermination => if expired then Ensured(false) else GetPod
                               case _ => if expired then Ensured(false) else GetReadiness)
        == Take(ssh, k, Progress(old(View()), at), slot)
    {
      Elapse(slot.before);
      expired := slot.answer.fail;
    }

    /** DeletePod, as far as the schedule goes. None: it has not returned yet. */
    method DeletePod(k: Name, schedule: seq<Slot>, from: nat) returns (r: Option<bool>, n: nat, ghost at: Call)
      requires from <= |schedule|
      modifies this
      ensures Reached(k, EvictEndpoint, schedule, from, n, at)
      ensures if r == None then n == |schedule| && !at.Deleted? else at == Deleted(r.value)
      ensures r == Some(true) ==> k !in pods
      ensures r != None ==> k !in endpoints
      ensures n > from + 1 && (!schedule[from + 1].answer.fail || schedule[from + 1].answer.applied) ==> k !in pods || pods[k].terminating
    {
      ghost var p := Progress(View(), EvictEndpoint);
      ghost var p0 := p;
      n, at := from, EvictEndpoint;
      if n == |schedule| {
        return None, n, at;
      }
      Evict(k, schedule[n]);
      n, at := n + 1, DeleteRequest;
      OneMore(ssh, k, p0, schedule, from, n - 1, p, Progress(View(), at));
      if n == |schedule| {
        return None, n, at;
      }
      p := Progress(View(), at);
      var reply := RequestDeletion(k, schedule[n]);
      ghost var deleted := Progress(View(), if reply.Found? then GetDeletedPod else Deleted(reply.NotFound?));
      n, at := n + 1, if reply.Found? then GetDeletedPod else Deleted(reply.NotFound?);
      OneMore(ssh, k, p0, schedule, from, n - 1, p, Progress(View(), at));
      if reply.Found? {
        ghost var mid := n;
        r, n, at := AwaitGone(k, schedule, n);
        FoldInTwo(Program(ssh, k), p0, schedule, from, mid, n);
        DoomSticks(ssh, k, deleted, schedule, mid, n);
      } else {
        r := Some(reply.NotFound?);
      }
      RunCallFits(ssh, k, p0, schedule, from, n);
    }

    method AwaitGone(k: Name, schedule: seq<Slot>, from: nat) returns (r: Option<bool>, n: nat, ghost at: Call)
      requires from <= |schedule|
      modifies this
      ensures Reached(k, GetDeletedPod, schedule, from, n, at)
      ensures if r == None then n == |schedule| && !at.Deleted? else at == Deleted(r.value)
      ensures r == Some(true) ==> k !in pods
    {
      n, at := from, GetDeletedPod;
      ghost var p0 := Progress(View(), at);
      while n < |schedule|
        invariant at == GetDeletedPod && Reached(k, GetDeletedPod, schedule, from, n, at)
      {
        ghost var p := Progress(View(), at);
        var reply := LookForDeletedPod(k, schedule[n]);
        n, at := n + 1, if reply.Found? then AwaitDeletion else Deleted(reply.NotFound?);
        OneMore(ssh, k, p0, schedule, from, n - 1, p, Progress(View(), at));
        if !reply.Found? {
          return Some(reply.NotFound?), n, at;
        }
        if n == |schedule| {
          return None, n, at;
        }
        p := Progress(View(), at);
        var expired := Wait(k, schedule[n], at);
        n, at := n + 1, if expired then Deleted(false) else GetDeletedPod;
        OneMore(ssh, k, p0, schedule, from, n - 1, p, Progress(View(), at));
        if expired {
          return Some(false), n, at;
        }
      }
      return None, n, at;
    }

    // ----- EnsureWorkspace -----

    /** How a stage of EnsureWorkspace ends: None is the end of the schedule, true goes on at next. */
    static predicate Ended(r: Option<bool>, n: nat, at: Call, schedule: seq<Slot>, next: Call) {
      match r
      case None => n == |schedule| && !at.Ensured?
      case Some(ok) => n <= |schedule| && at == if ok then next else Ensured(false)
    }

    method LookForClaim(k: Name, claim: Name, slot: Slot) returns (reply: Reply<()>)
      modifies this
      ensures !reply.AlreadyExists?
      ensures Progress(View(), if reply.Found? then GetPod else if reply.NotFound? then CreateClaim(claim) else Ensured(false))
        == Take(ssh, k, Progress(old(View()), GetClaim(claim)), slot)
      ensures reply.Found? ==> claim in pvcs
    {
      Elapse(slot.before);
      reply := if slot.answer.fail then Error else if claim in pvcs then Found(()) else NotFound;
    }

    method RequestClaim(k: Name, claim: Name, slot: Slot) returns (ok: bool)
      modifies this
      ensures Progress(View(), if ok then GetPod else Ensured(false))
        == Take(ssh, k, Progress(old(View()), CreateClaim(claim)), slot)
      ensures ok ==> claim in pvcs
    {
      Elapse(slot.before);
      var an := slot.answer;
      ok := !an.fail && claim !in pvcs;
      if ok || (an.fail && an.applied) {
        pvcs := pvcs + {claim};
      }
    }

    method EnsureClaim(k: Name, claim: Name, schedule: seq<Slot>, from: nat) returns (r: Option<bool>, n: nat, ghost at: Call)
      requires from <= |schedule|
      modifies this
      ensures Reached(k, GetClaim(claim), schedule, from, n, at) && Ended(r, n, at, schedule, GetPod)
      ensures r == Some(true) ==> claim in pvcs
    {
      ghost var p0 := Progress(View(), GetClaim(claim));
      n, at := from, GetClaim(claim);
      if n == |schedule| {
        return None, n, at;
      }
      var reply := LookForClaim(k, claim, schedule[n]);
      n, at := n + 1, if reply.Found? then GetPod else if reply.NotFound? then CreateClaim(claim) else Ensured(false);
      OneMore(ssh, k, p0, schedule, from, n - 1, p0, Progress(View(), at));
      if !reply.NotFound? {
        return Some(reply.Found?), n, at;
      }
      if n == |schedule| {
        return None, n, at;
      }
      ghost var p := Progress(View(), at);
      var ok := RequestClaim(k, claim, schedule[n]);
      n, at := n + 1, if ok then GetPod else Ensured(false);
      OneMore(ssh, k, p0, schedule, from, n - 1, p, Progress(View(), at));
      r := Some(ok);
    }

    method LookForPod(k: Name, slot: Slot) returns (reply: Reply<Pod>)
      modifies this
      ensures Progress(View(), match reply
                               case Found(pod) =>
                                 if pod.terminating then AwaitTermination
                                 else if pod.sshLabel == ssh then AfterPod(ssh) else Ensured(false)
                               case NotFound => CreatePod
                               case _ => Ensured(false))
        == Take(ssh, k, Progress(old(View()), GetPod), slot)
      ensures !reply.AlreadyExists? && (reply.Found? ==> k in pods && pods[k] == reply.value)
    {
      Elapse(slot.before);
      reply := if slot.answer.fail then Error else if k in pods then Found(pods[k]) else NotFound;
    }

    method RequestPod(k: Name, slot: Slot) returns (reply: Reply<()>)
      modifies this
      ensures Progress(View(), if reply.Found? then AfterPod(ssh) else if reply.AlreadyExists? then GetPod else Ensured(false))
        == Take(ssh, k, Progress(old(View()), CreatePod), slot)
      ensures reply.Found? ==> Live(View(), ssh, k)
    {
      Elapse(slot.before);
      var an := slot.answer;
      reply := if an.fail then Error else if k in pods then AlreadyExists else Found(());
      if (!an.fail || an.applied) && k !in pods {
        pods := pods[k := Pod(nextUid, false, Pending, false, ssh, if ssh then an.secret else "", None)];
        nextUid := nextUid + 1;
      }
    }

    method EnsurePod(k: Name, schedule: seq<Slot>, from: nat) returns (r: Option<bool>, n: nat, ghost at: Call)
      requires from <= |schedule|
      modifies this
      ensures Reached(k, GetPod, schedule, from, n, at) && Ended(r, n, at, schedule, AfterPod(ssh))
      ensures r == Some(true) ==> k in pods && !pods[k].terminating && pods[k].sshLabel == ssh
    {
      n, at := from, GetPod;
      ghost var p0 := Progress(View(), at);
      while n < |schedule|
        invariant at == GetPod && Reached(k, GetPod, schedule, from, n, at)
      {
        ghost var p := Progress(View(), at);
        var reply := LookForPod(k, schedule[n]);
        n := n + 1;
        if reply.Found? && !reply.value.terminating {
          at := if reply.value.sshLabel == ssh then AfterPod(ssh) else Ensured(false);
          OneMore(ssh, k, p0, schedule, from, n - 1, p, Progress(View(), at));
          return Some(reply.value.sshLabel == ssh), n, at;
        }
        if reply.Error? {
          at := Ensured(false);
          OneMore(ssh, k, p0, schedule, from, n - 1, p, Progress(View(), at));
          return Some(false), n, at;
        }
        at := if reply.NotFound? then CreatePod else AwaitTermination;
        OneMore(ssh, k, p0, schedule, from, n - 1, p, Progress(View(), at));
        if n == |schedule| {
          return None, n, at;
        }
        p := Progress(View(), at);
        if reply.NotFound? {
          var created := RequestPod(k, schedule[n]);
          n, at := n + 1, if created.Found? then AfterPod(ssh) else if created.AlreadyExists? then GetPod else Ensured(false);
          OneMore(ssh, k, p0, schedule, from, n - 1, p, Progress(View(), at));
          if !created.AlreadyExists? {
            return Some(created.Found?), n, at;
          }
        } else {
          var expired := Wait(k, schedule[n], at);
          n, at := n + 1, if expired then Ensured(false) else GetPod;
          OneMore(ssh, k, p0, schedule, from, n - 1, p, Progress(View(), at));
          if expired {
            return Some(false), n, at;
          }
        }
      }
      return None, n, at;
    }

    method LookForSecretRef(k: Name, slot: Slot) returns (pod: Option<Pod>)
      modifies this
      ensures Progress(View(), if pod.Some? then GetSecret(pod.value.uid, pod.value.secretRef) else Ensured(false))
        == Take(ssh, k, Progress(old(View()), GetPodForSecret), slot)
    {
      Elapse(slot.before);
      pod := if slot.answer.fail || k !in pods || pods[k].secretRef == "" then None else Some(pods[k]);
    }

    method LookForSecret(k: Name, uid: Uid, secret: Name, slot: Slot) returns (reply: Reply<bool>)
      modifies this
      ensures !reply.AlreadyExists?
      ensures Progress(View(), match reply
                               case Found(owned) => if owned then GetReadiness else Ensured(false)
                               case NotFound => CreateSecret(uid, secret)
                               case _ => Ensured(false))
        == Take(ssh, k, Progress(old(View()), GetSecret(uid, secret)), slot)
    {
      Elapse(slot.before);
      reply := if slot.answer.fail then Error else if secret in secrets then Found(secrets[secret].owner == Some(uid)) else NotFound;
    }

    method RequestSecret(k: Name, uid: Uid, secret: Name, slot: Slot) returns (ok: bool)
      modifies this
      ensures Progress(View(), if ok then GetReadiness else Ensured(false))
        == Take(ssh, k, Progress(old(View()), CreateSecret(uid, secret)), slot)
    {
      Elapse(slot.before);
      var an := slot.answer;
      ok := !an.fail && secret !in secrets;
      if (!an.fail || an.applied) && secret !in secrets {
        secrets := secrets[secret := Secret(Some(uid), an.host, an.client)];
      }
    }

    method EnsureSecret(k: Name, schedule: seq<Slot>, from: nat) returns (r: Option<bool>, n: nat, ghost at: Call)
      requires from <= |schedule|
      modifies this
      ensures Reached(k, GetPodForSecret, schedule, from, n, at) && Ended(r, n, at, schedule, GetReadiness)
      ensures old(Live(View(), ssh, k)) && ssh && r == Some(true) ==> Live(View(), ssh, k) && Owned(View(), k)
    {
      ghost var p0 := Progress(View(), GetPodForSecret);
      r, n, at := SecretRequests(k, schedule, from);
      if Live(p0.world, ssh, k) && ssh {
        RunCallFits(ssh, k, p0, schedule, from, n);
      }
    }

    method SecretRequests(k: Name, schedule: seq<Slot>, from: nat) returns (r: Option<bool>, n: nat, ghost at: Call)
      requires from <= |schedule|
      modifies this
      ensures Reached(k, GetPodForSecret, schedule, from, n, at) && Ended(r, n, at, schedule, GetReadiness)
    {
      n, at := from, GetPodForSecret;
      ghost var p0 := Progress(View(), at);
      if n == |schedule| {
        return None, n, at;
      }
      var pod := LookForSecretRef(k, schedule[n]);
      n, at := n + 1, if pod.Some? then GetSecret(pod.value.uid, pod.value.secretRef) else Ensured(false);
      OneMore(ssh, k, p0, schedule, from, n - 1, p0, Progress(View(), at));
      if pod.None? {
        return Some(false), n, at;
      }
      if n == |schedule| {
        return None, n, at;
      }
      ghost var p := Progress(View(), at);
      var uid, name := pod.value.uid, pod.value.secretRef;
      var reply := LookForSecret(k, uid, name, schedule[n]);
      n, at := n + 1, match reply
                      case Found(owned) => if owned then GetReadiness else Ensured(false)
                      case NotFound => CreateSecret(uid, name)
                      case _ => Ensured(false);
      OneMore(ssh, k, p0, schedule, from, n - 1, p, Progress(View(), at));
      if !reply.NotFound? {
        return Some(reply.Found? && reply.value), n, at;
      }
      if n == |schedule| {
        return None, n, at;
      }
      p := Progress(View(), at);
      var ok := RequestSecret(k, uid, name, schedule[n]);
      n, at := n + 1, if ok then GetReadiness else Ensured(false);
      OneMore(ssh, k, p0, schedule, from, n - 1, p, Progress(View(), at));
      r := Some(ok);
    }

    static function Ready(ssh: bool): Call {
      if ssh then GetPodForEndpoint else Ensured(true)
    }

    method LookForReadiness(k: Name, slot: Slot) returns (done: Option<bool>)
      modifies this
      ensures Progress(View(), match done
                               case None => AwaitReadiness
                               case Some(ok) => if ok then Ready(ssh) else Ensured(false))
        == Take(ssh, k, Progress(old(View()), GetReadiness), slot)
      ensures done == Some(true) ==> k in pods && pods[k].phase.Running? && pods[k].ready
    {
      Elapse(slot.before);
      if slot.answer.fail || k !in pods {
        return Some(false);
      }
      match pods[k].phase {
        case Running => done := if pods[k].ready then Some(true) else None;
        case Failed => done := Some(false);
        case Succeeded => done := Some(false);
        case Pending => done := None;
      }
    }

    method AwaitPodReady(k: Name, schedule: seq<Slot>, from: nat) returns (r: Option<bool>, n: nat, ghost at: Call)
      requires from <= |schedule|
      modifies this
      ensures Reached(k, GetReadiness, schedule, from, n, at) && Ended(r, n, at, schedule, Ready(ssh))
      ensures r == Some(true) ==> k in pods && pods[k].phase.Running? && pods[k].ready
    {
      n, at := from, GetReadiness;
      ghost var p0 := Progress(View(), at);
      while n < |schedule|
        invariant at == GetReadiness && Reached(k, GetReadiness, schedule, from, n, at)
      {
        ghost var p := Progress(View(), at);
        var done := LookForReadiness(k, schedule[n]);
        n, at := n + 1, if done.None? then AwaitReadiness else if done.value then Ready(ssh) else Ensured(false);
        OneMore(ssh, k, p0, schedule, from, n - 1, p, Progress(View(), at));
        if done.Some? || n == |schedule| {
          return done, n, at;
        }
        p := Progress(View(), at);
        var expired := Wait(k, schedule[n], at);
        n, at := n + 1, if expired then Ensured(false) else GetReadiness;
        OneMore(ssh, k, p0, schedule, from, n - 1, p, Progress(View(), at));
        if expired {
          return Some(false), n, at;
        }
      }
      return None, n, at;
    }

    method LookForAddress(k: Name, slot: Slot) returns (pod: Option<Pod>)
      modifies this
      ensures Progress(View(), if pod.Some? then GetSecretForEndpoint(pod.value) else Ensured(false))
        == Take(ssh, k, Progress(old(View()), GetPodForEndpoint), slot)
      ensures pod.Some? ==> pod.value.address.Some? && !pod.value.terminating
    {
      Elapse(slot.before);
      if slot.answer.fail || k !in pods || pods[k].terminating || pods[k].address.None? || pods[k].secretRef == "" {
        return None;
      }
      pod := Some(pods[k]);
    }

    /** k's endpoint is that of a pod as it was read, with the keys of the secret that this pod owns. */
    predicate EndpointOf(k: Name, pod: Pod)
      reads this
    {
      && pod.address.Some? && pod.secretRef in secrets && k in endpoints
      && endpoints[k].address == pod.address.value
      && secrets[pod.secretRef] == Secret(Some(pod.uid), endpoints[k].host, endpoints[k].client)
      && endpoints[k].host.parses && endpoints[k].client.parses
    }

    method StoreEndpoint(k: Name, pod: Pod, slot: Slot) returns (ok: bool)
      requires pod.address.Some?
      modifies this
      ensures Progress(View(), Ensured(ok)) == Take(ssh, k, Progress(old(View()), GetSecretForEndpoint(pod)), slot)
      ensures ok ==> EndpointOf(k, pod)
    {
      Elapse(slot.before);
      if slot.answer.fail || pod.secretRef !in secrets {
        return false;
      }
      var s := secrets[pod.secretRef];
      if s.owner != Some(pod.uid) || !s.client.parses || !s.host.parses {
        return false;
      }
      endpoints := endpoints[k := Endpoint(pod.address.value, s.host, s.client)];
      ok := true;
    }

    method PrepareEndpoint(k: Name, schedule: seq<Slot>, from: nat) returns (r: Option<bool>, n: nat, ghost at: Call)
      requires from <= |schedule|
      modifies this
      ensures Reached(k, GetPodForEndpoint, schedule, from, n, at) && Ended(r, n, at, schedule, Ensured(true))
      ensures r == Some(true) ==> exists pod: Pod :: !pod.terminating && EndpointOf(k, pod)
      ensures old(Live(View(), ssh, k) && Owned(View(), k)) && ssh && r == Some(true) ==> Live(View(), ssh, k) && EndpointIsPods(View(), k)
    {
      ghost var p0 := Progress(View(), GetPodForEndpoint);
      r, n, at := EndpointRequests(k, schedule, from);
      if Live(p0.world, ssh, k) && Owned(p0.world, k) && ssh {
        RunCallFits(ssh, k, p0, schedule, from, n);
      }
    }

    method EndpointRequests(k: Name, schedule: seq<Slot>, from: nat) returns (r: Option<bool>, n: nat, ghost at: Call)
      requires from <= |schedule|
      modifies this
      ensures Reached(k, GetPodForEndpoint, schedule, from, n, at) && Ended(r, n, at, schedule, Ensured(true))
      ensures r == Some(true) ==> exists pod: Pod :: !pod.terminating && EndpointOf(k, pod)
    {
      n, at := from, GetPodForEndpoint;
      ghost var p0 := Progress(View(), at);
      if n == |schedule| {
        return None, n, at;
      }
      var pod := LookForAddress(k, schedule[n]);
      n, at := n + 1, if pod.Some? then GetSecretForEndpoint(pod.value) else Ensured(false);
      OneMore(ssh, k, p0, schedule, from, n - 1, p0, Progress(View(), at));
      if pod.None? {
        return Some(false), n, at;
      }
      if n == |schedule| {
        return None, n, at;
      }
      ghost var p := Progress(View(), at);
      var ok := StoreEndpoint(k, pod.value, schedule[n]);
      n, at := n + 1, Ensured(ok);
      OneMore(ssh, k, p0, schedule, from, n - 1, p, Progress(View(), at));
      r := Some(ok);
    }

    /** The stages from the pod on. */
    method EnsureFromPod(k: Name, schedule: seq<Slot>, from: nat) returns (r: Option<bool>, n: nat, ghost at: Call)
      requires from <= |schedule|
      modifies this
      ensures Reached(k, GetPod, schedule, from, n, at) && Ended(r, n, at, schedule, Ensured(true))
      ensures r == Some(true) && !ssh ==> ReadyAt(View(), k)
    {
      ghost var p0 := Progress(View(), GetPod);
      r, n, at := EnsurePod(k, schedule, from);
      if r == Some(true) && ssh {
        ghost var mid := n;
        r, n, at := EnsureSecret(k, schedule, n);
        FoldInTwo(Program(ssh, k), p0, schedule, from, mid, n);
      }
      if r == Some(true) {
        ghost var mid := n;
        r, n, at := AwaitPodReady(k, schedule, n);
        FoldInTwo(Program(ssh, k), p0, schedule, from, mid, n);
      }
      if r == Some(true) && ssh {
        ghost var mid := n;
        r, n, at := PrepareEndpoint(k, schedule, n);
        FoldInTwo(Program(ssh, k), p0, schedule, from, mid, n);
      }
    }

    /** Where EnsureWorkspace begins; claim is the PVC of a persistent workspace. */
    static function Start(claim: Option<Name>): Call {
      if claim.Some? then GetClaim(claim.value) else GetPod
    }

    /**
     EnsureWorkspace, as far as the schedule goes. Success means a live pod that was seen ready, the PVC of a persistent
     workspace and, for SSH, the pod's own endpoint. A key without an endpoint gets one by no other way.
     */
    method EnsureWorkspace(k: Name, claim: Option<Name>, schedule: seq<Slot>, from: nat)
      returns (r: Option<bool>, n: nat, ghost at: Call)
      requires from <= |schedule|
      modifies this
      ensures Reached(k, Start(claim), schedule, from, n, at) && Ended(r, n, at, schedule, Ensured(true))
      ensures r == Some(true) ==> Live(View(), ssh, k) && (ssh ==> EndpointIsPods(View(), k))
      ensures r == Some(true) ==> SawReady(ssh, k, Progress(old(View()), Start(claim)), schedule, from, n)
      ensures r == Some(true) && !ssh ==> ReadyAt(View(), k)
      ensures r == Some(true) && claim.Some? ==> claim.value in pvcs
      ensures k !in old(endpoints) && k in endpoints ==> r == Some(true) && ssh
    {
      ghost var p0 := Progress(View(), Start(claim));
      r, n, at := EnsureStages(k, claim, schedule, from);
      EnsuredMeansUp(ssh, k, p0, schedule, from, n);
    }

    method EnsureStages(k: Name, claim: Option<Name>, schedule: seq<Slot>, from: nat)
      returns (r: Option<bool>, n: nat, ghost at: Call)
      requires from <= |schedule|
      modifies this
      ensures Reached(k, Start(claim), schedule, from, n, at) && Ended(r, n, at, schedule, Ensured(true))
      ensures r == Some(true) && !ssh ==> ReadyAt(View(), k)
      ensures r == Some(true) && claim.Some? ==> claim.value in pvcs
    {
      if claim.None? {
        r, n, at := EnsureFromPod(k, schedule, from);
      } else {
        ghost var p0 := Progress(View(), Start(claim));
        r, n, at := EnsureClaim(k, claim.value, schedule, from);
        if r == Some(true) {
          ghost var mid, p := n, Progress(View(), GetPod);
          r, n, at := EnsureFromPod(k, schedule, n);
          FoldInTwo(Program(ssh, k), p0, schedule, from, mid, n);
          RunCallKeepsClaims(ssh, k, p, schedule, mid, n);
        }
      }
    }
  }
}
