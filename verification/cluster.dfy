/**
 The API server as a store, and the Manager's two lifecycle calls as programs of API requests over it
 (internal/k8s/lifecycle.go, internal/k8s/ssh.go). One step of a call is one request, answered atomically, or
 one wait; between any two steps anything the environment can do may happen.
 */
module Cluster {
  import opened Base

  type Name = string
  type Uid = nat
  type Address = nat

  datatype Phase = Pending | Running | Succeeded | Failed

  /** ready is the workspace container's; address is None while status.podIP does not parse; "" is no annotation. */
  datatype Pod = Pod(uid: Uid, terminating: bool, phase: Phase, ready: bool, sshLabel: bool, secretRef: Name,
                     address: Option<Address>)

  datatype KeyData = KeyData(bits: nat, parses: bool)

  datatype Secret = Secret(owner: Option<Uid>, host: KeyData, client: KeyData)

  datatype Endpoint = Endpoint(address: Address, host: KeyData, client: KeyData)

  /** The store, and the Manager's own cache of endpoints. */
  datatype World = World(pods: map<Name, Pod>, secrets: map<Name, Secret>, pvcs: set<Name>, nextUid: Uid,
                         endpoints: map<Name, Endpoint>)

  /** Where a lifecycle call is: the request or wait it makes next, or its result. */
  datatype Call =
    // EnsureWorkspace
    | GetClaim(claim: Name) | CreateClaim(claim: Name)
    | GetPod | CreatePod | AwaitTermination
    | GetPodForSecret | GetSecret(uid: Uid, secret: Name) | CreateSecret(uid: Uid, secret: Name)
    | GetReadiness | AwaitReadiness
    | GetPodForEndpoint | GetSecretForEndpoint(pod: Pod)
    | Ensured(ok: bool)
    // DeletePod
    | EvictEndpoint | DeleteRequest | GetDeletedPod | AwaitDeletion
    | Deleted(ok: bool)

  /**
   How the environment answers one step: fail is an API error other than the ones the code tells apart, or an
   expired context at a wait; a failed write may have been applied. The rest is what a create stores.
   */
  datatype Answer = Answer(fail: bool, applied: bool, immediate: bool, secret: Name, host: KeyData, client: KeyData)

  function AfterPod(ssh: bool): Call {
    if ssh then GetPodForSecret else GetReadiness
  }

  function WithPod(w: World, k: Name, ssh: bool, an: Answer): World {
    if k in w.pods then w
    else w.(pods := w.pods[k := Pod(w.nextUid, false, Pending, false, ssh, if ssh then an.secret else "", None)],
            nextUid := w.nextUid + 1)
  }

  /** A delete request: the pod is marked, or gone at once. */
  function WithoutPod(w: World, k: Name, an: Answer): World {
    if k !in w.pods then w
    else if an.immediate then w.(pods := w.pods - {k})
    else w.(pods := w.pods[k := w.pods[k].(terminating := true)])
  }

  function CallStep(w: World, ssh: bool, k: Name, call: Call, an: Answer): (World, Call) {
    match call
    case GetClaim(claim) =>
      if an.fail then (w, Ensured(false)) else (w, if claim in w.pvcs then GetPod else CreateClaim(claim))
    case CreateClaim(claim) =>
      if an.fail then (if an.applied then w.(pvcs := w.pvcs + {claim}) else w, Ensured(false))
      else if claim in w.pvcs then (w, Ensured(false))
      else (w.(pvcs := w.pvcs + {claim}), GetPod)
    case GetPod =>
      if an.fail then (w, Ensured(false))
      else if k !in w.pods then (w, CreatePod)
      else if w.pods[k].terminating then (w, AwaitTermination)
      else (w, if w.pods[k].sshLabel == ssh then AfterPod(ssh) else Ensured(false))
    case CreatePod =>
      if an.fail then (if an.applied then WithPod(w, k, ssh, an) else w, Ensured(false))
      else if k in w.pods then (w, GetPod)
      else (WithPod(w, k, ssh, an), AfterPod(ssh))
    case AwaitTermination => (w, if an.fail then Ensured(false) else GetPod)
    case GetPodForSecret =>
      if an.fail || k !in w.pods || w.pods[k].secretRef == "" then (w, Ensured(false))
      else (w, GetSecret(w.pods[k].uid, w.pods[k].secretRef))
    case GetSecret(uid, n) =>
      if an.fail then (w, Ensured(false))
      else if n !in w.secrets then (w, CreateSecret(uid, n))
      else (w, if w.secrets[n].owner == Some(uid) then GetReadiness else Ensured(false))
    case CreateSecret(uid, n) =>
      var made := if n in w.secrets then w else w.(secrets := w.secrets[n := Secret(Some(uid), an.host, an.client)]);
      if an.fail then (if an.applied then made else w, Ensured(false))
      else if n in w.secrets then (w, Ensured(false))
      else (made, GetReadiness)
    case GetReadiness =>
      if an.fail || k !in w.pods then (w, Ensured(false))
      else if w.pods[k].phase.Running? && w.pods[k].ready then (w, if ssh then GetPodForEndpoint else Ensured(true))
      else if w.pods[k].phase.Failed? || w.pods[k].phase.Succeeded? then (w, Ensured(false))
      else (w, AwaitReadiness)
    case AwaitReadiness => (w, if an.fail then Ensured(false) else GetReadiness)
    case GetPodForEndpoint =>
      if an.fail || k !in w.pods then (w, Ensured(false))
      else
        var p := w.pods[k];
        if p.terminating || p.address.None? || p.secretRef == "" then (w, Ensured(false))
        else (w, GetSecretForEndpoint(p))
    case GetSecretForEndpoint(p) =>
      if an.fail || p.secretRef !in w.secrets || p.address.None? then (w, Ensured(false))
      else
        var s := w.secrets[p.secretRef];
        if s.owner != Some(p.uid) || !s.client.parses || !s.host.parses then (w, Ensured(false))
        else (w.(endpoints := w.endpoints[k := Endpoint(p.address.value, s.host, s.client)]), Ensured(true))
    case EvictEndpoint => (w.(endpoints := w.endpoints - {k}), DeleteRequest)
    case DeleteRequest =>
      if an.fail then (if an.applied then WithoutPod(w, k, an) else w, Deleted(false))
      else if k !in w.pods then (w, Deleted(true))
      else (WithoutPod(w, k, an), GetDeletedPod)
    case GetDeletedPod =>
      if an.fail then (w, Deleted(false)) else (w, if k in w.pods then AwaitDeletion else Deleted(true))
    case AwaitDeletion => (w, if an.fail then Deleted(false) else GetDeletedPod)
    case Ensured(_) => (w, call)
    case Deleted(_) => (w, call)
  }

  // ----- The environment -----

  /** Kubelet and garbage collector. Only this coordinator deletes pods; an assigned address stays. */
  datatype Happening =
    | PodRuns(k: Name, phase: Phase, ready: bool, address: Option<Address>)
    | PodVanishes(k: Name)
    | SecretCollected(n: Name)

  predicate Possible(w: World, h: Happening) {
    match h
    case PodRuns(k, _, _, address) => k in w.pods && (w.pods[k].address.Some? ==> address == w.pods[k].address)
    case PodVanishes(k) => k in w.pods && w.pods[k].terminating
    case SecretCollected(n) =>
      n in w.secrets && w.secrets[n].owner.Some? && forall k <- w.pods :: w.secrets[n].owner != Some(w.pods[k].uid)
  }

  function After(w: World, h: Happening): World {
    if !Possible(w, h) then w else
    match h
    case PodRuns(k, phase, ready, address) =>
      w.(pods := w.pods[k := w.pods[k].(phase := phase, ready := ready, address := address)])
    case PodVanishes(k) => w.(pods := w.pods - {k})
    case SecretCollected(n) => w.(secrets := w.secrets - {n})
  }

  // ----- What a call in progress may rely on -----

  /** A pod that nobody has marked for deletion, made for the configured backend. */
  predicate Live(w: World, ssh: bool, k: Name) {
    k in w.pods && !w.pods[k].terminating && w.pods[k].sshLabel == ssh
  }

  /** k's pod is gone, or is on its way out. */
  predicate Doomed(w: World, k: Name) {
    k !in w.pods || w.pods[k].terminating
  }

  /** The secret that k's pod refers to is the pod's own. */
  predicate Owned(w: World, k: Name) {
    && k in w.pods && w.pods[k].secretRef in w.secrets
    && w.secrets[w.pods[k].secretRef].owner == Some(w.pods[k].uid)
  }

  /** k's endpoint has the address of k's pod and the keys of the pod's own secret. */
  predicate EndpointIsPods(w: World, k: Name) {
    && Owned(w, k) && k in w.endpoints
    && var p, e := w.pods[k], w.endpoints[k];
    && w.secrets[p.secretRef] == Secret(Some(p.uid), e.host, e.client)
    && p.address == Some(e.address)
    && e.host.parses && e.client.parses
  }

  /** What EnsureWorkspace promises: the pod is live, and for SSH the cache holds its address and its own secret's keys. */
  predicate Leased(w: World, ssh: bool, k: Name) {
    Live(w, ssh, k) && (k in w.endpoints <==> ssh) && (ssh ==> EndpointIsPods(w, k))
  }

  /** What holds of the pod and its secret when the call for k is at this point. */
  predicate PodFits(w: World, ssh: bool, k: Name, call: Call) {
    match call
    case GetPodForSecret => Live(w, ssh, k) && ssh
    case GetSecret(uid, n) => Live(w, ssh, k) && ssh && w.pods[k].uid == uid && w.pods[k].secretRef == n
    case CreateSecret(uid, n) => Live(w, ssh, k) && ssh && w.pods[k].uid == uid && w.pods[k].secretRef == n
    case GetReadiness => Live(w, ssh, k) && (ssh ==> Owned(w, k))
    case AwaitReadiness => Live(w, ssh, k) && (ssh ==> Owned(w, k))
    case GetPodForEndpoint => Live(w, ssh, k) && ssh && Owned(w, k)
    case GetSecretForEndpoint(p) =>
      && Live(w, ssh, k) && ssh && Owned(w, k)
      && p.address.Some?
      && w.pods[k] == p.(phase := w.pods[k].phase, ready := w.pods[k].ready)
    case Ensured(ok) => ok ==> Live(w, ssh, k) && (ssh ==> EndpointIsPods(w, k))
    case GetDeletedPod => Doomed(w, k)
    case AwaitDeletion => Doomed(w, k)
    case Deleted(ok) => ok ==> k !in w.pods
    case _ => true
  }

  /** A key that had no endpoint gets one only in the end, and only for SSH. */
  predicate EndpointFits(w: World, ssh: bool, k: Name, call: Call) {
    k in w.endpoints ==> call.EvictEndpoint? || (call == Ensured(true) && ssh)
  }

  predicate Fits(w: World, ssh: bool, k: Name, call: Call) {
    PodFits(w, ssh, k, call) && EndpointFits(w, ssh, k, call)
  }

  lemma StepFits(w: World, ssh: bool, k: Name, call: Call, an: Answer)
    requires PodFits(w, ssh, k, call)
    ensures var (w', call') := CallStep(w, ssh, k, call, an);
      PodFits(w', ssh, k, call') && (EndpointFits(w, ssh, k, call) ==> EndpointFits(w', ssh, k, call'))
  {
  }

  /** A delete request that succeeds, or that fails after it was applied, leaves no live pod. */
  lemma DeleteRequestDooms(w: World, ssh: bool, k: Name, an: Answer)
    requires !an.fail || an.applied
    ensures Doomed(CallStep(w, ssh, k, DeleteRequest, an).0, k)
  {
  }

  /** What can be wrong with a key's pod, secret or PVC at a request of EnsureWorkspace, when the request itself succeeds. */
  predicate Obstacle(w: World, ssh: bool, k: Name, call: Call) {
    match call
    case CreateClaim(claim) => claim in w.pvcs  // made by somebody else meanwhile
    case GetPod => k in w.pods && !w.pods[k].terminating && w.pods[k].sshLabel != ssh
    case GetPodForSecret => k !in w.pods || w.pods[k].secretRef == ""
    case GetSecret(uid, n) => n in w.secrets && w.secrets[n].owner != Some(uid)
    case CreateSecret(_, n) => n in w.secrets  // made by somebody else meanwhile
    case GetReadiness => k !in w.pods || w.pods[k].phase.Failed? || w.pods[k].phase.Succeeded?
    case GetPodForEndpoint => k !in w.pods || w.pods[k].terminating || w.pods[k].address.None? || w.pods[k].secretRef == ""
    case GetSecretForEndpoint(p) =>
      || p.address.None? || p.secretRef !in w.secrets
      || w.secrets[p.secretRef].owner != Some(p.uid) || !w.secrets[p.secretRef].client.parses || !w.secrets[p.secretRef].host.parses
    case _ => false
  }

  /** A request or wait of EnsureWorkspace ends it with an error exactly for a failed answer or an obstacle. */
  lemma EnsureFailsExactly(w: World, ssh: bool, k: Name, call: Call, an: Answer)
    requires !call.Ensured? && !Deleting(call)
    ensures CallStep(w, ssh, k, call, an).1 == Ensured(false) <==> an.fail || Obstacle(w, ssh, k, call)
  {
  }

  /** A request or wait of DeletePod ends it with an error exactly for a failed answer. */
  lemma DeleteFailsExactly(w: World, ssh: bool, k: Name, call: Call, an: Answer)
    requires Deleting(call) && !call.Deleted?
    ensures CallStep(w, ssh, k, call, an).1 == Deleted(false) <==> an.fail && !call.EvictEndpoint?
  {
  }

  predicate Deleting(call: Call) {
    call.EvictEndpoint? || call.DeleteRequest? || call.GetDeletedPod? || call.AwaitDeletion? || call.Deleted?
  }

  /** Whether the claim has been dealt with, or is still to be, or never will. */
  predicate ClaimDue(w: World, call: Call, claim: Name) {
    claim in w.pvcs || call == GetClaim(claim) || call == CreateClaim(claim) || call == Ensured(false)
  }

  /** EnsureWorkspace gets past its claim only with the claim there. */
  lemma StepKeepsClaimDue(w: World, ssh: bool, k: Name, call: Call, an: Answer, claim: Name)
    requires ClaimDue(w, call, claim)
    ensures var (w', call') := CallStep(w, ssh, k, call, an); ClaimDue(w', call', claim)
  {
  }

  /** Everything that is not a step of a call for k leaves k's live pod, its secret and its endpoint be. */
  predicate Undisturbed(w: World, w': World, k: Name) {
    && (k in w'.endpoints <==> k in w.endpoints)
    && (k in w.endpoints ==> w'.endpoints[k] == w.endpoints[k])
    && (k in w'.pods ==> k in w.pods && (w.pods[k].terminating ==> w'.pods[k].terminating))
    && (k in w.pods && !w.pods[k].terminating ==>
          && k in w'.pods
          && var p, p' := w.pods[k], w'.pods[k];
          && p' == p.(phase := p'.phase, ready := p'.ready, address := p'.address)
          && (p.address.Some? ==> p'.address == p.address)
          && (p.secretRef in w.secrets && w.secrets[p.secretRef].owner == Some(p.uid) ==>
                p.secretRef in w'.secrets && w'.secrets[p.secretRef] == w.secrets[p.secretRef]))
  }

  lemma HappeningUndisturbs(w: World, h: Happening, k: Name)
    ensures Undisturbed(w, After(w, h), k)
  {
  }

  lemma OtherCallUndisturbs(w: World, ssh: bool, j: Name, call: Call, an: Answer, k: Name)
    requires j != k
    ensures Undisturbed(w, CallStep(w, ssh, j, call, an).0, k)
  {
  }

  lemma UndisturbedFits(w: World, w': World, ssh: bool, k: Name, call: Call)
    requires Undisturbed(w, w', k) && PodFits(w, ssh, k, call)
    ensures PodFits(w', ssh, k, call) && (EndpointFits(w, ssh, k, call) ==> EndpointFits(w', ssh, k, call))
  {
  }

  /** PVCs are never deleted, and only a call made with a claim adds one, that one. */
  lemma StepKeepsClaims(w: World, ssh: bool, k: Name, call: Call, an: Answer)
    ensures var (w', call') := CallStep(w, ssh, k, call, an);
      && w.pvcs <= w'.pvcs <= w.pvcs + ClaimOf(call)
      && ClaimOf(call') <= ClaimOf(call)
  {
  }

  function ClaimOf(call: Call): set<Name> {
    if call.GetClaim? || call.CreateClaim? then {call.claim} else {}
  }

  // ----- UIDs -----

  /** Every UID in the store has been given out, and no two pods have the same. */
  predicate UidsFit(w: World) {
    && (forall k <- w.pods :: w.pods[k].uid < w.nextUid)
    && (forall j, k | j in w.pods && k in w.pods && j != k :: w.pods[j].uid != w.pods[k].uid)
    && (forall n <- w.secrets :: w.secrets[n].owner.Some? ==> w.secrets[n].owner.value < w.nextUid)
  }

  /** The UID that a call has read has been given out. */
  predicate CallUidFits(w: World, call: Call) {
    call.GetSecret? || call.CreateSecret? ==> call.uid < w.nextUid
  }

  /** What is in the store was there before, with the same UID and secret, or is new with a new UID. */
  predicate OnlyNewPods(w: World, w': World) {
    && w.nextUid <= w'.nextUid
    && forall k <- w'.pods ::
         if k in w.pods && w'.pods[k].uid == w.pods[k].uid then w'.pods[k].secretRef == w.pods[k].secretRef
         else w.nextUid <= w'.pods[k].uid
  }

  lemma CreateKeepsUids(w: World, ssh: bool, k: Name, an: Answer)
    requires UidsFit(w)
    ensures UidsFit(WithPod(w, k, ssh, an)) && OnlyNewPods(w, WithPod(w, k, ssh, an))
  {
    var w' := WithPod(w, k, ssh, an);
    forall i, j | i in w'.pods && j in w'.pods && i != j ensures w'.pods[i].uid != w'.pods[j].uid {
      assert i != k ==> w'.pods[i] == w.pods[i];
      assert j != k ==> w'.pods[j] == w.pods[j];
    }
  }

  lemma DeleteKeepsUids(w: World, k: Name, an: Answer)
    requires UidsFit(w)
    ensures UidsFit(WithoutPod(w, k, an)) && OnlyNewPods(w, WithoutPod(w, k, an))
  {
    var w' := WithoutPod(w, k, an);
    assert forall j <- w'.pods :: j in w.pods && w'.pods[j].uid == w.pods[j].uid && w'.pods[j].secretRef == w.pods[j].secretRef;
  }

  /** A change of the pods by one write, or of the secrets by one that a given UID owns, or of neither. */
  predicate OneWrite(w: World, w': World, ssh: bool, k: Name, call: Call, an: Answer) {
    && ((w'.pods == w.pods && w'.nextUid == w.nextUid)
        || (w'.pods == WithPod(w, k, ssh, an).pods && w'.nextUid == WithPod(w, k, ssh, an).nextUid)
        || (w'.pods == WithoutPod(w, k, an).pods && w'.nextUid == w.nextUid))
    && (w'.secrets == w.secrets
        || (call.CreateSecret? && w'.secrets == w.secrets[call.secret := Secret(Some(call.uid), an.host, an.client)]))
  }

  lemma StepIsOneWrite(w: World, ssh: bool, k: Name, call: Call, an: Answer)
    ensures OneWrite(w, CallStep(w, ssh, k, call, an).0, ssh, k, call, an)
  {
  }

  lemma SamePodsKeepUids(w: World, v: World, w': World)
    requires UidsFit(w) && UidsFit(v) && OnlyNewPods(w, v) && w'.pods == v.pods && w'.nextUid == v.nextUid
    requires forall n <- w'.secrets :: w'.secrets[n].owner.Some? ==> w'.secrets[n].owner.value < w.nextUid
    ensures UidsFit(w') && OnlyNewPods(w, w')
  {
  }

  lemma WriteKeepsUids(w: World, w': World, ssh: bool, k: Name, call: Call, an: Answer)
    requires UidsFit(w) && CallUidFits(w, call) && OneWrite(w, w', ssh, k, call, an)
    ensures UidsFit(w') && OnlyNewPods(w, w')
  {
    if w'.pods == w.pods && w'.nextUid == w.nextUid {
      SamePodsKeepUids(w, w, w');
    } else if w'.nextUid == w.nextUid && w'.pods == WithoutPod(w, k, an).pods {
      DeleteKeepsUids(w, k, an);
      SamePodsKeepUids(w, WithoutPod(w, k, an), w');
    } else {
      CreateKeepsUids(w, ssh, k, an);
      SamePodsKeepUids(w, WithPod(w, k, ssh, an), w');
    }
  }

  lemma StepKeepsUids(w: World, ssh: bool, k: Name, call: Call, an: Answer)
    requires UidsFit(w) && CallUidFits(w, call)
    ensures var (w', call') := CallStep(w, ssh, k, call, an); UidsFit(w') && CallUidFits(w', call') && OnlyNewPods(w, w')
  {
    var w' := CallStep(w, ssh, k, call, an).0;
    StepIsOneWrite(w, ssh, k, call, an);
    WriteKeepsUids(w, w', ssh, k, call, an);
    CallUidStays(w, ssh, k, call, an);
  }

  lemma CallUidStays(w: World, ssh: bool, k: Name, call: Call, an: Answer)
    requires UidsFit(w) && CallUidFits(w, call)
    ensures var (w', call') := CallStep(w, ssh, k, call, an); CallUidFits(w', call')
  {
  }

  lemma HappeningKeepsUids(w: World, h: Happening)
    requires UidsFit(w)
    ensures UidsFit(After(w, h)) && OnlyNewPods(w, After(w, h))
  {
  }
}
