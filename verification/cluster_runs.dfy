/**
 What becomes of the Manager's lifecycle calls (internal/k8s/lifecycle.go): every error has a cause, and from every world
 that does not stand in the way some course of events lets the call succeed.
 */
module ClusterRuns {
  import opened Base
  import opened Cluster
  import opened ClusterManager
  import opened Schedules

  // ----- Errors have causes -----

  /** At slot m the answer failed, or something was wrong with the key's pod, secret or PVC. */
  predicate WentWrong(ssh: bool, k: Name, p: Progress, schedule: seq<Slot>, from: nat, m: nat)
    requires from <= m < |schedule|
  {
    var q := RunCall(ssh, k, p, schedule, from, m);
    schedule[m].answer.fail || Obstacle(AfterAll(q.world, schedule[m].before), ssh, k, q.at)
  }

  /** EnsureWorkspace fails only for a failed request or an expired context, or for an obstacle that a request met. */
  lemma {:induction false} EnsureErrorHasCause(ssh: bool, k: Name, p: Progress, schedule: seq<Slot>, from: nat, to: nat) returns (m: nat)
    requires from <= to <= |schedule| && !Deleting(p.at) && p.at != Ensured(false)
    requires RunCall(ssh, k, p, schedule, from, to).at == Ensured(false)
    ensures from <= m < to && WentWrong(ssh, k, p, schedule, from, m)
  {
    var q := RunCall(ssh, k, p, schedule, from, to - 1);
    StaysEnsuring(ssh, k, p, schedule, from, to - 1);
    if q.at == Ensured(false) {
      m := EnsureErrorHasCause(ssh, k, p, schedule, from, to - 1);
    } else {
      m := to - 1;
      EnsureFailsExactly(AfterAll(q.world, schedule[m].before), ssh, k, q.at, schedule[m].answer);
    }
  }

  lemma TakeStays(ssh: bool, k: Name, p: Progress, slot: Slot)
    ensures Deleting(Take(ssh, k, p, slot).at) <==> Deleting(p.at)
  {
  }

  lemma {:induction false} StaysEnsuring(ssh: bool, k: Name, p: Progress, schedule: seq<Slot>, from: nat, to: nat)
    requires from <= to <= |schedule| && !Deleting(p.at)
    ensures !Deleting(RunCall(ssh, k, p, schedule, from, to).at)
  {
    if from < to {
      StaysEnsuring(ssh, k, p, schedule, from, to - 1);
      TakeStays(ssh, k, RunCall(ssh, k, p, schedule, from, to - 1), schedule[to - 1]);
    }
  }

  /** DeletePod fails only for a failed request or an expired context. */
  lemma {:induction false} DeleteErrorHasCause(ssh: bool, k: Name, p: Progress, schedule: seq<Slot>, from: nat, to: nat) returns (m: nat)
    requires from <= to <= |schedule| && Deleting(p.at) && p.at != Deleted(false)
    requires RunCall(ssh, k, p, schedule, from, to).at == Deleted(false)
    ensures from <= m < to && schedule[m].answer.fail
  {
    var q := RunCall(ssh, k, p, schedule, from, to - 1);
    StaysDeleting(ssh, k, p, schedule, from, to - 1);
    if q.at == Deleted(false) {
      m := DeleteErrorHasCause(ssh, k, p, schedule, from, to - 1);
    } else {
      m := to - 1;
      DeleteFailsExactly(AfterAll(q.world, schedule[m].before), ssh, k, q.at, schedule[m].answer);
    }
  }

  lemma {:induction false} StaysDeleting(ssh: bool, k: Name, p: Progress, schedule: seq<Slot>, from: nat, to: nat)
    requires from <= to <= |schedule| && Deleting(p.at)
    ensures Deleting(RunCall(ssh, k, p, schedule, from, to).at)
  {
    if from < to {
      StaysDeleting(ssh, k, p, schedule, from, to - 1);
      TakeStays(ssh, k, RunCall(ssh, k, p, schedule, from, to - 1), schedule[to - 1]);
    }
  }

  // ----- Calls can succeed -----

  /** The call after all of a schedule. */
  function Play(ssh: bool, k: Name, p: Progress, schedule: seq<Slot>): Progress {
    RunCall(ssh, k, p, schedule, 0, |schedule|)
  }

  lemma {:induction false} FoldPrefix<S, X>(f: (S, X) -> S, s: S, xs: seq<X>, ys: seq<X>, n: nat)
    requires n <= |xs|
    ensures Fold(f, s, xs + ys, 0, n) == Fold(f, s, xs, 0, n)
  {
    if n > 0 {
      FoldPrefix(f, s, xs, ys, n - 1);
    }
  }

  lemma PlayOneMore(ssh: bool, k: Name, p: Progress, schedule: seq<Slot>, slot: Slot)
    ensures Play(ssh, k, p, schedule + [slot]) == Take(ssh, k, Play(ssh, k, p, schedule), slot)
  {
    FoldPrefix(Program(ssh, k), p, schedule, [slot], |schedule|);
  }

  /** A request that nothing goes before and that does not fail; what a create stores is new and in order. */
  const FINE := KeyData(0, true)

  function Answered(secret: Name): Answer {
    Answer(false, false, false, secret, FINE, FINE)
  }

  /** Some course of events takes the call from p to q. */
  ghost predicate Leads(ssh: bool, k: Name, p: Progress, q: Progress) {
    exists schedule :: NothingFails(schedule) && q == Play(ssh, k, p, schedule)
  }

  predicate NothingFails(schedule: seq<Slot>) {
    forall slot <- schedule :: !slot.answer.fail
  }

  lemma LeadsOn(ssh: bool, k: Name, p: Progress, q: Progress, slot: Slot)
    requires Leads(ssh, k, p, q) && !slot.answer.fail
    ensures Leads(ssh, k, p, Take(ssh, k, q, slot))
  {
    var schedule :| NothingFails(schedule) && q == Play(ssh, k, p, schedule);
    PlayOneMore(ssh, k, p, schedule, slot);
    assert NothingFails(schedule + [slot]);
  }

  lemma LeadsToItself(ssh: bool, k: Name, p: Progress)
    ensures Leads(ssh, k, p, p)
  {
    assert p == Play(ssh, k, p, []);
  }

  lemma AfterOne(w: World, h: Happening)
    ensures AfterAll(w, []) == w && AfterAll(w, [h]) == After(w, h)
  {
    assert [h][..0] == [];
  }

  /** One request, with at most one happening before it. */
  lemma Request(ssh: bool, k: Name, p: Progress, q: Progress, h: Option<Happening>, an: Answer) returns (r: Progress)
    requires Leads(ssh, k, p, q) && !an.fail
    ensures Leads(ssh, k, p, r)
    ensures r.world == CallStep(if h.Some? then After(q.world, h.value) else q.world, ssh, k, q.at, an).0
    ensures r.at == CallStep(if h.Some? then After(q.world, h.value) else q.world, ssh, k, q.at, an).1
  {
    AfterOne(q.world, if h.Some? then h.value else PodVanishes(k));
    var slot := Slot(if h.Some? then [h.value] else [], an);
    LeadsOn(ssh, k, p, q, slot);
    r := Take(ssh, k, q, slot);
  }

  lemma DeletionIsAsked(ssh: bool, k: Name, w: World) returns (q: Progress)
    ensures Leads(ssh, k, Progress(w, EvictEndpoint), q)
    ensures if k in w.pods then q.at == GetDeletedPod && k in q.world.pods && q.world.pods[k].terminating
            else q.at == Deleted(true) && k !in q.world.pods
  {
    var p := Progress(w, EvictEndpoint);
    LeadsToItself(ssh, k, p);
    q := Request(ssh, k, p, p, None, Answered("s"));
    q := Request(ssh, k, p, q, None, Answered("s"));
  }

  lemma DeletionIsAwaited(ssh: bool, k: Name, p: Progress, q0: Progress) returns (q: Progress)
    requires Leads(ssh, k, p, q0) && q0.at == GetDeletedPod && k in q0.world.pods && q0.world.pods[k].terminating
    ensures Leads(ssh, k, p, q) && q.at == Deleted(true) && k !in q.world.pods
  {
    q := Request(ssh, k, p, q0, None, Answered("s"));
    q := Request(ssh, k, p, q, None, Answered("s"));
    q := Request(ssh, k, p, q, Some(PodVanishes(k)), Answered("s"));
  }

  /** From every world DeletePod can return nil: nothing need fail, and a marked pod goes in the end. */
  lemma DeleteCanSucceed(ssh: bool, k: Name, w: World) returns (q: Progress)
    ensures Leads(ssh, k, Progress(w, EvictEndpoint), q) && q.at == Deleted(true) && k !in q.world.pods
  {
    q := DeletionIsAsked(ssh, k, w);
    if q.at.GetDeletedPod? {
      q := DeletionIsAwaited(ssh, k, Progress(w, EvictEndpoint), q);
    }
  }

  /** No pod, a pod on its way out, or a live one whose secret is missing or in order. */
  predicate Usable(w: World, ssh: bool, k: Name) {
    k !in w.pods || w.pods[k].terminating || (Live(w, ssh, k) && (ssh ==> SecretUsable(w, w.pods[k])))
  }

  predicate SecretUsable(w: World, p: Pod) {
    && p.secretRef != ""
    && (p.secretRef in w.secrets ==>
          var s := w.secrets[p.secretRef]; s.owner == Some(p.uid) && s.host.parses && s.client.parses)
  }

  lemma {:induction false} FreshName(names: set<Name>) returns (n: Name)
    ensures n != "" && forall x <- names :: |x| < |n|
    decreases |names|
  {
    n := "s";
    if names != {} {
      var x :| x in names;
      n := FreshName(names - {x});
      if |n| <= |x| {
        n := x + "s";
      }
    }
  }

  lemma ClaimIsMet(ssh: bool, k: Name, claim: Option<Name>, w: World) returns (q: Progress)
    ensures Leads(ssh, k, Progress(w, Manager.Start(claim)), q) && q.at == GetPod
    ensures q.world == w.(pvcs := w.pvcs + if claim.Some? then {claim.value} else {})
  {
    q := Progress(w, Manager.Start(claim));
    LeadsToItself(ssh, k, q);
    if claim.Some? {
      var p := q;
      q := Request(ssh, k, p, p, None, Answered("s"));
      if q.at.CreateClaim? {
        q := Request(ssh, k, p, q, None, Answered("s"));
      }
      assert q.world.pvcs == w.pvcs + {claim.value};
    }
  }

  lemma PodIsMet(ssh: bool, k: Name, p: Progress, q0: Progress) returns (q: Progress)
    requires Leads(ssh, k, p, q0) && q0.at == GetPod && Usable(q0.world, ssh, k)
    ensures Leads(ssh, k, p, q) && q.at == AfterPod(ssh)
    ensures Live(q.world, ssh, k) && (ssh ==> SecretUsable(q.world, q.world.pods[k]))
  {
    var n := FreshName(q0.world.secrets.Keys);
    q := Request(ssh, k, p, q0, None, Answered(n));
    if q.at.AwaitTermination? {
      q := Request(ssh, k, p, q, None, Answered(n));
      q := Request(ssh, k, p, q, Some(PodVanishes(k)), Answered(n));
    }
    if q.at.CreatePod? {
      assert n !in q.world.secrets.Keys;
      q := Request(ssh, k, p, q, None, Answered(n));
    }
  }

  lemma SecretIsMet(ssh: bool, k: Name, p: Progress, q0: Progress) returns (q: Progress)
    requires Leads(ssh, k, p, q0) && q0.at == AfterPod(ssh) && Live(q0.world, ssh, k)
    requires ssh ==> SecretUsable(q0.world, q0.world.pods[k])
    ensures Leads(ssh, k, p, q) && q.at == GetReadiness && Live(q.world, ssh, k)
    ensures ssh ==> SecretUsable(q.world, q.world.pods[k]) && q.world.pods[k].secretRef in q.world.secrets
  {
    q := q0;
    if ssh {
      q := Request(ssh, k, p, q, None, Answered("s"));
      q := Request(ssh, k, p, q, None, Answered("s"));
      if q.at.CreateSecret? {
        q := Request(ssh, k, p, q, None, Answered("s"));
      }
    }
  }

  lemma ReadinessIsMet(ssh: bool, k: Name, p: Progress, q0: Progress) returns (q: Progress)
    requires Leads(ssh, k, p, q0) && q0.at == GetReadiness && Live(q0.world, ssh, k)
    requires ssh ==> SecretUsable(q0.world, q0.world.pods[k]) && q0.world.pods[k].secretRef in q0.world.secrets
    ensures Leads(ssh, k, p, q) && q.at == (if ssh then GetPodForEndpoint else Ensured(true))
    ensures ssh ==> Live(q.world, ssh, k) && SecretUsable(q.world, q.world.pods[k])
    ensures ssh ==> q.world.pods[k].secretRef in q.world.secrets && q.world.pods[k].address.Some?
  {
    var address := if q0.world.pods[k].address.Some? then q0.world.pods[k].address else Some(0);
    q := Request(ssh, k, p, q0, Some(PodRuns(k, Running, true, address)), Answered("s"));
  }

  lemma EndpointIsMet(ssh: bool, k: Name, p: Progress, q0: Progress) returns (q: Progress)
    requires Leads(ssh, k, p, q0) && q0.at == GetPodForEndpoint && Live(q0.world, ssh, k) && SecretUsable(q0.world, q0.world.pods[k])
    requires q0.world.pods[k].secretRef in q0.world.secrets && q0.world.pods[k].address.Some?
    ensures Leads(ssh, k, p, q) && q.at == Ensured(true)
  {
    q := Request(ssh, k, p, q0, None, Answered("s"));
    q := Request(ssh, k, p, q, None, Answered("s"));
  }

  /**
   From every world without an obstacle EnsureWorkspace can return nil, with or without a PVC there: nothing need fail, a
   pod that is on its way out goes, and the pod gets ready and has an address.
   */
  lemma EnsureCanSucceed(ssh: bool, k: Name, claim: Option<Name>, w: World) returns (q: Progress)
    requires Usable(w, ssh, k)
    ensures Leads(ssh, k, Progress(w, Manager.Start(claim)), q) && q.at == Ensured(true)
  {
    var p := Progress(w, Manager.Start(claim));
    q := ClaimIsMet(ssh, k, claim, w);
    q := PodIsMet(ssh, k, p, q);
    q := SecretIsMet(ssh, k, p, q);
    q := ReadinessIsMet(ssh, k, p, q);
    if ssh {
      q := EndpointIsMet(ssh, k, p, q);
    }
  }
}
