# Verification model of voidshell

voidshell is an SSH server that gives every GitHub user a workspace pod in Kubernetes. This project models its
coordinating logic in Dafny and proves what that logic promises: over every interleaving of its goroutines, every answer
of the API server and the SSH backend, and every input string.

`dafny verify dfyconfig.toml` checks everything.

## The models

- `base.dfy`: shared datatypes.
- `lease_machine.dfy`, `lease_runs.dfy`: one key's workspace lease as a step machine with a program counter per caller. A
  step is one statement that other goroutines can come between. The state keeps every lease object ever allocated for
  the key, so entries of the map can be dropped and re-created while callers still refer to older objects, and a log of
  the lifecycle calls that began and ended.
- `lease_server.dfy`: the `Server` and `workspaceLease` objects, updated in place. Each atomic section is a method that is
  one step of the machine for its key and leaves all other keys alone; `AcquireWorkspace` and `Release` are built of
  these with arbitrary other callers running in between, and branch on the caller's context and the lease's active
  count as the source does. The program counters are the model's own: the methods advance them by the machine's
  function. Every step is recorded, and `Sound` ties each key's state to what the recorded steps lead to.
- `cluster.dfy`, `manager.dfy`: the API server as a store of pods, secrets and PVCs, `EnsureWorkspace` and `DeletePod` as
  programs of requests over it, and the `Manager` object with the source's loops, which is proved to run these programs.
- `cluster_runs.dfy`: why a lifecycle call fails, and that it can succeed.
- `tenure.dfy`: the leases of all keys, their lifecycle calls in flight and the cluster, composed.
- `coordinator.dfy`: that and `service.dfy`, composed, with the same leases in both.
- `forward_ssh.dfy`, `port_forward.dfy`: the two forwarding loops, with adversarial order of events.
- `session_requests.dfy`: the two implementations of session-channel requests.
- `service.dfy`: `Serve`, its connections and channel handlers, composed with the leases: shutdown and exit messages.
- `sessions.dfy`: `runSession` and `proxySession` as methods over the `Server`, with the exit message each sends.
- `naming.dfy`: from GitHub account and SSH username to pod name.
- `key_cache.dfy`: calls of the key cache and logins as one concurrent machine, and the `Cache` object and
  `Authenticate` in place over it, beside any other calls and logins.

A machine is driven by a schedule: any sequence of steps, and a step that cannot happen when its turn comes is
skipped. A property of every schedule is a property of every interleaving. Methods that wait in the source take the
schedule of what happens meanwhile, record every step that it offers, whether it could be taken or not, and say so when
the schedule ends before they return.

## Assumptions

- One coordinator runs, and nobody else deletes pods (docs/adr/004-independent-sessions-and-workspace-lifecycle.md).
- An API request is atomic. A request that fails may or may not have been applied, so a pod whose deletion failed can
  still be live, and can be leased again.
- The API server gives a new pod a UID that it has not given out before, and the cluster begins with distinct UIDs. An
  assigned pod IP stays. The secret names that pods are created with are arbitrary, so nothing is assumed of their
  randomness; ownership is decided by UID alone.
- A secret is collected only when its owner is gone.
- The digest in a workspace name is any function to six hexadecimal digits. Injectivity of names assumes only that it does
  not collide on the two strings in question.
- The clock of the key cache does not go back. At most a delay passes between GitHub serving a list and its stamp; a
  fetch that takes longer fails, as the HTTP client's timeout (internal/auth/authenticator.go:44) covers reading the
  list. The delay is a parameter.
- A lost backend transport ends the backend's output and its channel requests as EOF and CLOSE do.

## Where the documentation and the code differ

docs/operations.md:232 and the comments at internal/auth/github.go:18-20 and internal/auth/authenticator.go:31-33 promise
that a removed key stops working within one TTL. The stamp of a cache entry is taken after the fetch
(internal/auth/github.go:56-62), and `Authenticate` may wait for other users' lists after it has one that has the key.
`KeyCache.RefusalBoundsAreExact` gives the exact bound of three readings of the promise, all counted from when GitHub last
served the key, and `KeyCache.OneTtlIsEnoughExactlyWithoutDelay` says when one TTL meets each:

- a call of `keys` returns the key only within TTL plus delay; one TTL is enough exactly when there is no delay;
- a login that begins TTL plus delay later, or after that, is refused; one TTL is enough exactly when there is no delay;
- a login under way is accepted only within TTL plus delay plus the time its remaining fetches take after it got the list
  with the key; one TTL is enough exactly when there is no delay and these take no time. With two allowed users that
  time is not bounded by the TTL: `KeyCache.SlowestLogin` builds such a login for every length.

This is for a TTL above zero. Otherwise nothing is cached, and every login that begins after GitHub last served the key is
refused.

The comment at internal/k8s/ssh.go:233-236 says that `forwardSSH` awaits the backend's CLOSE. It awaits the end of the
backend's requests, which a lost transport ends too; then it can return nil although bytes of the backend are missing.
`ForwardSsh.NilMeansComplete` says exactly when, and `ForwardSsh.LostTransportCanPassForNil` is such a run.

internal/workspace/selector.go strips `persist.` after the username was checked, so the name that is left need not be an
accepted username: `Naming.StrippedNameMayBeInvalid` says exactly when it is.

## Model

| member | source | states |
|---|---|---|
| `LeaseMachine.StepKeepsInvariant` | internal/server/lifecycle.go:20-80 | Every statement of every caller keeps the lease invariant: each undropped caller refers to the object in the map, users counts the undropped callers, tokens plus callers inside the gate make one, active counts the holders, and the log of lifecycle calls fits where the caller in the gate is |
| `LeaseMachine.GoneMovesKeepInvariant` | internal/server/lifecycle.go:68-79 | After a caller has dropped, a cancellation or a repeated release disturbs nobody, and the repeated release changes nothing at all |
| `LeaseMachine.InsiderIsAlone` | internal/server/lifecycle.go:11-18 | While one caller is inside the gate no other caller of the key is, across all lease objects, and the gate has no token |
| `LeaseMachine.MoveIsBalanced` | internal/server/lifecycle.go:14-79 | Every statement changes gate, users and active by exactly as much as its caller changes between waiting, inside, counted and gone |
| `LeaseRuns.RunKeepsInvariant` | internal/server/lifecycle.go:20-80 | The invariant holds at every point of every run of any number of callers |
| `LeaseRuns.RunCounts` | internal/server/lifecycle.go:14-44 | In every run an entry exists exactly while somebody has not dropped; then users is the number of undropped callers, whatever object they refer to, and every object outside the map is as if fresh and referred to only by callers that have dropped |
| `LeaseRuns.GateSendNeverBlocks` | internal/server/lifecycle.go:53-76 | In every run a caller about to send its token back finds the channel empty |
| `LeaseRuns.EntryIsRemovedIdle` | internal/server/lifecycle.go:31-38 | In every run the map entry disappears only with no holder, nobody in the gate and nothing provisioned |
| `LeaseRuns.OneCallInFlight` | internal/server/lifecycle.go:45-79 | No two lifecycle calls on a key are ever in flight together, and the log's last entry is the one running |
| `LeaseRuns.EnsuresAreSeparatedByOneDelete` | internal/server/lifecycle.go:57-79 | Across lease generations, between two EnsureWorkspace calls of a key lie the end of the first, successful or not, and exactly one DeletePod, begun and ended |
| `LeaseRuns.HolderMeansUp` | internal/server/lifecycle.go:57-69 | While somebody holds the key the last lifecycle event is a successful end of EnsureWorkspace |
| `LeaseRuns.IdleMeansDown` | internal/server/lifecycle.go:69-78 | With no holder and nobody in the gate the last lifecycle event, if any, is the end of a DeletePod |
| `LeaseRuns.StepRefines` | internal/server/lifecycle.go:20-80 | Every step of the lease is a step, or a stutter, of an atomic machine that knows only the set of holders and the calls made |
| `LeaseRuns.RunRefines` | internal/server/lifecycle.go:20-80 | Every run maps to a run of the atomic machine, as lease objects come and go |
| `LeaseRuns.RunIsAtomicallySound` | internal/server/lifecycle.go:57-79 | So at every point of every run the workspace is provisioned exactly while the set of holders is not empty, as clients see it |
| `LeaseRuns.BlockedBehindOne` | internal/server/lifecycle.go:39-44 | A caller blocked at the gate waits for exactly one other caller of its key, which has an enabled step |
| `LeaseRuns.InsideStepsNearTheGate` | internal/server/lifecycle.go:45-79 | Every statement run inside the gate, with whatever outcome, brings the gate's return nearer |
| `LeaseRuns.CancelledWaiterLeaves` | internal/server/lifecycle.go:39-44 | A waiter whose context is cancelled leaves in two steps of its own, without a lifecycle call, whoever is in the gate |
| `LeaseRuns.NoDeadlock` | internal/server/lifecycle.go:20-80 | While some caller neither holds the key nor has left it, some caller can take a step that brings it nearer its end |
| `LeaseRuns.EveryStepNearsTheEnd` | internal/server/lifecycle.go:20-80 | No caller ever returns to a statement it has passed |
| `LeaseRuns.OnlyLiveContextsGoOn` | internal/server/lifecycle.go:52-56 | A caller that has just taken the gate goes on to the look at active exactly if its context is live, and gives the gate back exactly if not |
| `LeaseRuns.CancelledGivesUp` | internal/server/lifecycle.go:52-56 | With its context cancelled it puts the token back and drops its use, with no lifecycle call and active as it was |
| `LeaseRuns.LiveJoinsHolders` | internal/server/lifecycle.go:57-79 | With a live context and other holders it is counted, gives the gate back and holds, with no lifecycle call |
| `LeaseRuns.LiveEnsures` | internal/server/lifecycle.go:57-58 | With a live context and no holder it calls EnsureWorkspace once |
| `LeaseRuns.EnsuredGoesOn` | internal/server/lifecycle.go:58-67 | After that it is counted, gives the gate back and holds if the call succeeded; otherwise it calls DeletePod once, gives the gate back and drops, uncounted |
| `LeaseRuns.LastReleaseDeletes` | internal/server/lifecycle.go:71-77 | The release of the only holder calls DeletePod once, whatever comes of it, and leaves one holder and one user less |
| `LeaseRuns.EarlierReleaseLeavesUp` | internal/server/lifecycle.go:71-77 | The release of one of several holders makes no lifecycle call and leaves one holder and one user less |
| `LeaseRuns.GivingUpHasACause` | internal/server/lifecycle.go:39-65 | In every run whoever left without ever holding the key was cancelled, or an EnsureWorkspace of the key had failed |
| `LeaseRuns.OnlyCancelEndsContext` | internal/server/lifecycle.go:39-56 | Any context can end at any time, which alone changes nothing else, and no statement of the lease ends or revives one |
| `LeaseServer.Server.Arrive` | internal/server/lifecycle.go:21-30 | The first critical section is the machine's Start for its key and changes no other key |
| `LeaseServer.Server.Step` | internal/server/lifecycle.go:31-79 | Every later statement is the machine's step for its key and changes no other key |
| `LeaseServer.Server.KeyIsInARun` | internal/server/lifecycle.go:20-80 | Whatever methods have been called, each key's state ends a run of its machine, so all that is proved of runs holds of it |
| `LeaseServer.Server.AwaitGate` | internal/server/lifecycle.go:39-44 | The select, beside any other callers: it takes the gate, or leaves on a cancelled context, or is still waiting when the schedule ends |
| `LeaseServer.Server.LookAtContext` | internal/server/lifecycle.go:52-56 | Inside the gate a caller goes on to the look at active exactly if its context is live, and to giving the gate back if it is cancelled |
| `LeaseServer.Server.LookForHolders` | internal/server/lifecycle.go:57 | The caller provisions exactly if active is zero, and joins otherwise |
| `LeaseServer.Server.Provision` | internal/server/lifecycle.go:57-65 | A setup that failed ends with the end of a DeletePod in the key's log, before the caller gives the gate back |
| `LeaseServer.Server.AcquireWorkspace` | internal/server/lifecycle.go:20-80 | Beside any other callers: a release function is returned exactly with the caller holding and the workspace up; an error exactly with the caller gone, and only if its context was cancelled or an EnsureWorkspace failed during the call; once it has been offered a turn it still waits only with its context live and no token in the gate |
| `LeaseServer.Server.Release` | internal/server/lifecycle.go:68-79 | The release function drops the caller's hold, or, once it has been offered a turn, still waits only with no token in the gate; a second call changes no key |
| `LeaseServer.Server.LookForOthers` | internal/server/lifecycle.go:72-73 | After giving up its hold the caller cleans up exactly if active is zero; otherwise the last lifecycle event is still a successful EnsureWorkspace |
| `LeaseServer.Server.GiveUpHold` | internal/server/lifecycle.go:71-75 | The gate is given back with the end of a DeletePod as the key's last lifecycle event if this was the last holder, and with the workspace still up if not |
| `Cluster.StepFits` | internal/k8s/lifecycle.go:104-270 | Every request and wait of EnsureWorkspace and DeletePod keeps what the call may rely on: a just-created or unmarked pod of the configured backend from ensurePod on, its own secret from ensureSSHCredentials on; a key without an endpoint gets one only at the end |
| `Cluster.HappeningUndisturbs` | internal/k8s/ssh.go:107-145 | Nothing the environment does disturbs a live pod, its UID, its address, its secret or its endpoint |
| `Cluster.OtherCallUndisturbs` | internal/k8s/lifecycle.go:104-227 | No request of a call for another key does either |
| `Cluster.UndisturbedFits` | internal/k8s/lifecycle.go:104-164 | So a call in progress still relies on the same facts |
| `Cluster.StepKeepsClaims` | internal/k8s/lifecycle.go:166-197 | PVCs are never removed, and a request adds at most the PVC its call was made for |
| `Cluster.StepKeepsUids` | internal/k8s/ssh.go:61-85 | Every request keeps UIDs distinct and a secret owned by a UID that was given out; a pod in the store is an old one with its UID and secret name, or has a new UID |
| `Cluster.DeleteRequestDooms` | internal/k8s/lifecycle.go:140-146 | A delete request that succeeds, or is applied though it fails, leaves the pod absent or marked |
| `Cluster.EnsureFailsExactly` | internal/k8s/lifecycle.go:166-270 | A request or wait of EnsureWorkspace ends it with an error exactly if it fails itself or meets an obstacle: a PVC or secret created in between, a pod of the other backend, gone, or in a terminal phase, a missing, foreign or unparsable secret, or no address |
| `Cluster.DeleteFailsExactly` | internal/k8s/lifecycle.go:138-164 | A request or wait of DeletePod ends it with an error exactly if it fails itself |
| `ClusterManager.RunCallFits` | internal/k8s/lifecycle.go:104-164 | What a call may rely on holds after any number of requests with anything happening in between |
| `ClusterManager.ReadyWasSeen` | internal/k8s/lifecycle.go:229-270 | No call gets behind waitForPodReady unless at one of its look-ups the pod was running with its container ready |
| `ClusterManager.EnsuredMeansUp` | internal/k8s/lifecycle.go:104-133 | On every schedule EnsureWorkspace returns nil only with a live pod that was seen ready and, for SSH, the pod's own endpoint; a key without an endpoint gets one by no other way |
| `ClusterManager.DoomSticks` | internal/k8s/lifecycle.go:140-164 | Once DeletePod has marked the pod it stays marked or is gone, whatever happens and however the call ends |
| `ClusterManager.Manager.DeletePod` | internal/k8s/lifecycle.go:138-164 | On every schedule it runs the call program; once its delete request succeeded or was applied the pod is absent or marked, it returns nil only with the pod absent, and however it returns the endpoint is gone |
| `ClusterManager.Manager.AwaitGone` | internal/k8s/lifecycle.go:147-163 | Its polling loop runs the call program, and returns nil only with the pod absent |
| `ClusterManager.Manager.EnsureClaim` | internal/k8s/lifecycle.go:166-197 | Get, then create if it is missing; it goes on only with the PVC there, and all else is an error |
| `ClusterManager.Manager.EnsurePod` | internal/k8s/lifecycle.go:199-227 | The loop over get, create, already-exists and terminating pods runs the call program, and returns nil only with an unmarked pod of the configured backend there |
| `ClusterManager.Manager.EnsureSecret` | internal/k8s/ssh.go:50-87 | Runs the call program; for a live pod it returns nil only with that pod's secret there and owned by it |
| `ClusterManager.Manager.AwaitPodReady` | internal/k8s/lifecycle.go:229-270 | The fast path and the polling loop run the call program, and return nil only with the pod running and its container ready |
| `ClusterManager.Manager.PrepareEndpoint` | internal/k8s/ssh.go:109-145 | Runs the call program; it returns nil only with the address of an unmarked pod and the parsed keys of the secret that pod owns stored as the endpoint, and for a live pod with its secret that pod is the one in the store |
| `ClusterManager.Manager.EnsureWorkspace` | internal/k8s/lifecycle.go:104-133 | On every schedule, whatever is cached before: nil means a live pod of the configured backend that was seen ready, the PVC of a persistent workspace and, for SSH, the endpoint of that pod with that pod's keys; a key without an endpoint has none after an error |
| `ClusterRuns.EnsureErrorHasCause` | internal/k8s/lifecycle.go:104-133 | Over every schedule EnsureWorkspace returns an error only after a request that failed, a context that expired or an obstacle that a request met |
| `ClusterRuns.DeleteErrorHasCause` | internal/k8s/lifecycle.go:138-164 | Over every schedule DeletePod returns an error only after a request that failed or a context that expired |
| `ClusterRuns.DeleteCanSucceed` | internal/k8s/lifecycle.go:138-164 | From every world some schedule without a failure leads DeletePod to nil, with the pod gone |
| `ClusterRuns.EnsureCanSucceed` | internal/k8s/lifecycle.go:104-133 | From every world with no pod, a pod on its way out, or a live one whose secret is missing or its own, some schedule leads EnsureWorkspace to nil, with and without a PVC and SSH |
| `Tenure.MoveKeepsInvariant` | internal/server/lifecycle.go:57-78 | Every step of any caller, any call in flight or the environment keeps, for every key, the lease invariant and what the lease's log says of the cluster |
| `Tenure.HolderIsLeased` | internal/k8s/ssh.go:109-154 | At every point of its tenure a holder has an unmarked pod, no call is in flight for it and, for SSH, its lookup finds that pod's IP and the keys of a secret owned by that pod |
| `Tenure.HolderOwnsItsSecret` | internal/k8s/ssh.go:125-127 | The UID that owns the holder's secret is its pod's and no other pod's |
| `Tenure.UidNamesOnePod` | internal/k8s/ssh.go:61-64 | Over a whole run a UID belongs to one pod name and one secret name, as pods are deleted and re-created |
| `Tenure.TenureKeepsPod` | internal/server/lifecycle.go:57-78 | While one caller holds the key the pod keeps its UID, its credentials and its endpoint, whatever everybody else does |
| `Tenure.IdleKeyHasNoEndpoint` | internal/k8s/lifecycle.go:135-139 | With no holder and nobody in the gate there is no endpoint and no call in flight |
| `Tenure.IdleKeyHasNoPod` | docs/adr/004-independent-sessions-and-workspace-lifecycle.md:21-22 | With no holder and nobody in the gate the last lifecycle event is the end of a DeletePod, and if that succeeded there is no pod, then and as long as the key stays idle |
| `Tenure.ReturnsAreTruthful` | internal/k8s/lifecycle.go:104-164 | In the composed system DeletePod returns nil only with the pod absent, EnsureWorkspace only with it leased, and any other return leaves no endpoint |
| `Tenure.ClaimsOnlyGrow` | internal/k8s/lifecycle.go:111-115 | Over any run the set of PVCs only grows, and only by the home PVCs of workspaces that EnsureWorkspace was called for in persistent mode; whose these are `Naming.ClaimsAreTheIdentities` says |
| `Tenure.PersistentHolderHasItsHome` | internal/k8s/lifecycle.go:111-115 | At every point of every run the holder of a persistent workspace has that workspace's own home PVC in the store |
| `ForwardSsh.StepKeepsInvariant` | internal/k8s/ssh.go:205-265 | Every step of the copies, the watcher, the select loop and the adversary keeps the loop's invariant |
| `ForwardSsh.NilMeansComplete` | internal/k8s/ssh.go:237-265 | In every interleaving nil means that all the client sent is written and the write side closed, all that arrived from the backend is with the client, and the end of the backend's requests was seen; the client has all the backend sent exactly unless the transport was lost with bytes on the way |
| `ForwardSsh.LostTransportCanPassForNil` | internal/k8s/ssh.go:205-265 | A run that returns nil, without any cancellation, with a byte of the backend missing |
| `ForwardSsh.EOFIsMarkedBeforeItIsSent` | internal/k8s/ssh.go:215-224 | In every interleaving outputEOF is set once a clean output EOF has been sent, so a cancellation then arms the timer instead of aborting |
| `ForwardSsh.ReactionToEOFDrains` | internal/k8s/ssh.go:251-262 | A client that cancels in reaction to output EOF is never cut off at once: only a failed input copy or the expired timer ends the drain |
| `ForwardSsh.DrainGivesUpOnlyOnErrorOrTimer` | internal/k8s/ssh.go:225-262 | The timer is armed at most once, only by a cancellation after output EOF, and no abort follows |
| `ForwardSsh.OutcomesHaveCauses` | internal/k8s/ssh.go:237-265 | Each error is returned only for its own reason |
| `ForwardSsh.IterationsEnd` | internal/k8s/ssh.go:237-264 | Each iteration returns or nils exactly one of four channels, and nothing else does |
| `ForwardSsh.NoDeadlock` | internal/k8s/ssh.go:205-265 | Once client and backend have said their last, some step always lowers the work that is left until the function returns |
| `ForwardSsh.NothingAddsWork` | internal/k8s/ssh.go:205-265 | From then on no step of anybody adds to that work |
| `ForwardSsh.CanReturnNil` | internal/k8s/ssh.go:205-265 | So unless a copy has failed the function can still return nil, with nothing more said by client, backend or context |
| `ForwardSsh.EverythingCanBeForwarded` | internal/k8s/ssh.go:205-265 | Whatever bytes client and backend have to send, some run delivers exactly these both ways and returns nil |
| `ForwardSsh.CancellationAborts` | internal/k8s/ssh.go:251-256 | In every reachable state with the loop waiting, the context cancelled and no output EOF, the select can fire and returns the context's error |
| `ForwardSsh.CancellationArmsTimer` | internal/k8s/ssh.go:251-260 | With output EOF and no timer it can fire, arms the timer and stops watching the context |
| `ForwardSsh.TimerEndsDrain` | internal/k8s/ssh.go:259-262 | An armed timer can expire, and an expired one lets the select fire and return the context's error |
| `ForwardSsh.InputResultIsTaken` | internal/k8s/ssh.go:239-243 | The result of a finished input copy lets the select fire: an error is returned, a clean end nils the channel |
| `ForwardSsh.OutputResultIsTaken` | internal/k8s/ssh.go:244-248 | So does that of a finished output copy |
| `ForwardSsh.CloseIsTaken` | internal/k8s/ssh.go:237-265 | So does the end of the requests, and with all three channels nil the loop is left with nil |
| `ForwardSsh.ContextCanEnd` | internal/k8s/ssh.go:225 | The context can be cancelled in any state, which alone changes nothing else |
| `ForwardSsh.ForwardLoop` | internal/k8s/ssh.go:225-265 | Under any schedule the loop is the run of all that the schedule offers up to its return; if it has not returned the whole schedule was offered, it still waits, and what it was last to pick is not ready; it fires at most five times |
| `PortForward.Forward` | internal/k8s/portfwd.go:77-106 | The nested selects compute the specified result of the arrivals |
| `PortForward.Confluence` | internal/k8s/portfwd.go:77-106 | Absent cancellation, and local errors before the output has ended, the result depends only on how the output and the error stream ended, not on their order; a later local error changes nothing |
| `PortForward.NilMeansBothEnded` | internal/k8s/portfwd.go:77-106 | Whatever arrives and in whatever order, nil means both ended without an error |
| `PortForward.ContextIsReturned` | internal/k8s/portfwd.go:77-106 | While Forward waits, after any arrivals, the end of the context makes it return the context's error |
| `PortForward.LocalErrorIsReturned` | internal/k8s/portfwd.go:77-106 | An error of the input copy is returned at once exactly unless the output came first |
| `PortForward.ErrorStreamIsReturned` | internal/k8s/portfwd.go:77-106 | The end of the error stream is returned at once if it is an error or the output came first; then its error goes before that of the output |
| `PortForward.OutputIsReturned` | internal/k8s/portfwd.go:77-106 | The end of the output is returned at once exactly if the error stream came first |
| `SessionRequests.HandleSession` | internal/server/session.go:76-133 | The request loop, with what follows the start request, gives the specified verdicts, start, terminal and resizes |
| `SessionRequests.LocalGrantsInOrder` | internal/server/session.go:81-132 | On every request sequence the Kubernetes loop grants at most one pty-req, then at most one start, no subsystem after a pty-req and nothing else; the process started is the start's, on a terminal exactly when a pty-req was granted |
| `SessionRequests.LocalGrantsExactly` | internal/server/session.go:81-132 | The request at each position is granted exactly if it is a well-formed pty-req or start at its time: nothing after a granted start, no second pty-req, no SFTP after a pty-req |
| `SessionRequests.SizesAreOffered` | internal/server/session.go:78-140 | Nothing is offered before the start; then the size of the granted pty-req, or 80 by 24 if there was none or a dimension is zero, and after it every decodable window change, in order |
| `SessionRequests.DrainRequests` | internal/server/session.go:135-147 | While the process runs only decodable window changes matter, and nothing is granted |
| `SessionRequests.ProxyRequests` | internal/server/sshproxy.go:78-104 | The proxy's request goroutine forwards and replies as specified, for every pattern of refusals and transport errors |
| `SessionRequests.ProxyForwardsExactly` | internal/server/sshproxy.go:78-147 | For every pattern of answers the backend is sent exactly the admitted requests, unchanged and in order, up to one at which the transport breaks: those in place, and decodable window changes after an effective pty-req and signals after an effective start; one has effect exactly unless it wants a reply and is refused |
| `SessionRequests.ProxySendsInOrder` | internal/server/sshproxy.go:78-147 | After an effective start no start and no pty-req reaches the backend, after an effective pty-req no pty-req and no subsystem; window changes only follow an effective pty-req, signals only an effective start |
| `SessionRequests.AtMostOneStart` | internal/server/sshproxy.go:92-98 | At most one start and one pty-req take effect, the pty-req first |
| `SessionRequests.RepliesAreInOrder` | internal/server/sshproxy.go:81-103 | Replies go to a prefix of the want-reply requests, in order, one each, all of them unless the transport breaks, and say whether the request had effect |
| `SessionRequests.BackendsAgree` | internal/server/session.go:81-147 | On every request sequence both backends, the proxy's accepting everything, accept and reject the same pty-req, shell, exec and subsystem requests |
| `Service.StepKeepsInvariant` | internal/server/server.go:89-175 | Every step of the accept loop, a connection, a handler or a lease keeps the wait-group counts exact and every handler in step with its lease |
| `Service.ServeReturnsClean` | internal/server/server.go:89-114 | When Serve has returned every handler has finished, every caller of every lease has left, the map is empty, and for every key ever provisioned the last lifecycle event is the end of a DeletePod |
| `Service.ExitFollowsRelease` | internal/server/sshproxy.go:37-63 | On every path of every backend at most one exit message is sent, only after this session's release has run to its end or without a lease ever obtained; on the proxy's normal path only after both output streams ended |
| `Service.DeferredReleaseHasNoEffect` | internal/server/sshproxy.go:44 | The deferred second release can always run and changes no lease |
| `Service.FinishedSessionHasReported` | internal/server/sshproxy.go:44-122 | A session that has finished after it asked for a lease has sent exactly one exit message, but for a proxied one that came to its normal end, which may have sent none |
| `Service.ConnectionIsAccepted` | internal/server/server.go:97-113 | While Serve accepts connections a new one is counted and can open channels |
| `Service.ChannelIsServed` | internal/server/server.go:158-171 | A channel on an accepting connection is counted, and its handler can always ask for its key's lease |
| `Service.AcquireReturnsToHandler` | internal/server/session.go:154-159 | A handler given the lease works; one refused reports that, or finishes if it forwards |
| `Service.WorkEndsInRelease` | internal/server/sshproxy.go:37-63 | A working handler can end at any time, and begins its release unless it is a proxy with output to drain |
| `Service.ShutdownIsNeverStuck` | internal/server/server.go:89-175 | In every reachable state, until Serve has returned, some step brings its return nearer |
| `Sessions.Channel.SendExit` | internal/server/session.go:179-181 | An exit message may be sent only once the session's caller is through with its lease |
| `Sessions.LastExitIsLast` | internal/server/sshproxy.go:107-115 | The exit kept is the last exit-status or exit-signal of the backend, if there was one |
| `Sessions.AwaitExit` | internal/server/sshproxy.go:107-115 | The loop over the backend's requests keeps that exit and refuses exactly the requests that want a reply, each once and in order |
| `Sessions.ProxyExitsAreTrue` | internal/server/sshproxy.go:107-122 | What is sent after a held lease is exactly the backend's last exit message, by its position; exactly status 1 without a backend or channel, or for a silent backend of a live session; and nothing for a silent backend of a cancelled one |
| `Sessions.RunSession` | internal/server/session.go:149-177 | Exactly one exit status once the session is through, after release: the attachment's code, or 1 for every failure; none while it still waits |
| `Sessions.ProxySession` | internal/server/sshproxy.go:37-122 | The backend's last exit message unchanged, by its position among the backend's requests, or status 1 for a failure or a silent backend, or nothing for a cancelled session with a silent backend; sent after release, and the deferred release finds nothing to do |
| `Sessions.OneExitAtMost` | internal/server/sshproxy.go:105-122 | A proxied session that held its lease sends one exit message, or none exactly when it was cancelled and the backend sent no exit |
| `Coordinator.StepKeepsInvariant` | internal/server/server.go:89-175 | Every step of the server, of a lifecycle call or of the cluster keeps the invariants of both models over the same leases |
| `Coordinator.WorkingIsLeased` | internal/server/session.go:154-171 | While a session or forwarding channel works its workspace's pod is there and unmarked and, for SSH, its look-up finds that pod's endpoint |
| `Coordinator.ServeIsHeldUpOnlyByItsCalls` | internal/server/lifecycle.go:45-65 | The cluster holds a statement of the server up exactly while the lifecycle call that it waits for has not come to that result |
| `Coordinator.ServeLeavesNothing` | internal/server/server.go:89-114 | When Serve has returned no lifecycle call is in flight, no endpoint is left, and no pod whose last DeletePod succeeded |
| `Coordinator.ProxyReportsAgree` | internal/server/sshproxy.go:105-122 | What the proxied session's method sends is a report that its handler can make in the machine, counted alike |
| `Naming.ReplacementJoinsWords` | internal/workspace/identity.go:60-63 | Replacing and trimming joins the alphanumeric words of the input with single hyphens |
| `Naming.NormalizedIsSegment` | internal/workspace/identity.go:58-71 | For every string the result is the joined words if they fit, else the longest prefix within the limit, less a hyphen at its end, or "x" if there is nothing: non-empty alphanumeric runs joined by single hyphens |
| `Naming.NormalizeIsIdempotent` | internal/workspace/identity.go:58-71 | Normalizing twice is normalizing once, in spite of truncating before trimming |
| `Naming.NormalizeIgnoresCase` | internal/workspace/identity.go:61 | Strings that differ only in the case of ASCII letters are normalized alike |
| `Naming.TwoMoreLettersHaveLowerCase` | internal/workspace/identity.go:61 | Two other characters have an ASCII letter as their lower case, and count as it |
| `Naming.WorkspaceIDIsLabel` | internal/workspace/identity.go:27-34 | For every pair of strings the workspace ID is a label of at most 63 characters; pod names have at most 69 and 79 |
| `Naming.BoundsAreAttained` | internal/workspace/identity.go:12-14 | The bounds of 63 and 79 are attained, for any digest |
| `Naming.NamesOfSegments` | internal/workspace/identity.go:27-56 | The workspace ID, PVC name and both pod names of an identity that needs no normalizing, spelled out |
| `Naming.SelectorIsUndone` | internal/workspace/selector.go:24-30 | Adding the prefix back to a parsed selector gives the username, for every string |
| `Naming.SelectorIsExact` | internal/workspace/selector.go:24-30 | A username selects persistent storage under a name exactly if it is `persist.` and that name, not empty, and ephemeral storage under itself exactly otherwise |
| `Naming.UsernamesJoin` | internal/server/validate.go:11 | Accepted usernames can be joined, also by a dot, an underscore or a hyphen, up to 63 characters; none of one character but a letter or digit is, and none with a slash |
| `Naming.StrippedNameMayBeInvalid` | internal/server/validate.go:11 | The name left of an accepted persistent username is accepted exactly if it starts with a letter or digit; `persist.-x` leaves one that is not |
| `Naming.CanonicalIsInjective` | internal/workspace/identity.go:73-77 | Without a slash in the SSH names the hashed strings differ for different identities |
| `Naming.ModesNeverShareAName` | internal/workspace/identity.go:42-51 | An ephemeral and a persistent pod never have the same name, even for different identities with colliding digests |
| `Naming.NameEndsWithDigest` | internal/workspace/identity.go:42-51 | Equal pod names of one mode have equal digests and workspace IDs |
| `Naming.SessionsSharePodsOnlyAsIntended` | internal/workspace/selector.go:15-30 | Two sessions share a pod exactly if GitHub account and SSH username are the same, unless the digest collides on their strings |
| `Naming.ClaimsAreTheIdentities` | internal/workspace/identity.go:53-56 | Two identities with slash-free SSH names have the same PVC exactly if they are the same, unless the digest collides on their strings |
| `Naming.SessionsShareHomesOnlyAsIntended` | internal/workspace/selector.go:15-30 | Two persistent sessions mount the same home exactly if GitHub account and SSH username are the same, unless the digest collides on their strings |
| `KeyCache.RunKeepsInvariant` | internal/auth/github.go:47-66 | Under every interleaving of calls and logins each stored list was served at most the delay before its stamp, each returned list was fetched by its call or was served less than TTL plus delay before it is returned, and each login has only such lists of calls made since it began |
| `KeyCache.StampsNeverGoBack` | internal/auth/github.go:56-63 | A user's stamp never goes back, only a successful fetch changes an entry, and a failed one returns nothing |
| `KeyCache.VerdictIsRight` | internal/auth/authenticator.go:61-101 | With every list obtained, counting the users whose list has the key accepts exactly if one position of the allow-list matches, that user, and tells no match and several apart |
| `KeyCache.ReturnIsRecent` | internal/auth/github.go:47-66 | A call returns a key only within TTL plus delay after GitHub last served it, and begins within that time |
| `KeyCache.AcceptedIsRecent` | internal/auth/authenticator.go:58-102 | A login is accepted only if it began within TTL plus delay after GitHub last served the key for that user, and got the list with the key within that time |
| `KeyCache.SlowestLogin` | internal/auth/authenticator.go:61-78 | For every TTL, delay and waiting time a run in which a call returns, and a login begins and ends, as late as these bounds allow |
| `KeyCache.RefusalBoundsAreExact` | internal/auth/github.go:15-23 | A bound on returning a removed key, on beginning an accepted login, or on ending one holds if and only if it is, with caching, at least TTL plus delay, the same, or that plus the time the login's other fetches take; without caching, at least one moment more than the delay, one moment, or the first plus that time |
| `KeyCache.OneTtlIsEnoughExactlyWithoutDelay` | docs/operations.md:232 | One TTL is such a bound for calls and for new logins if and only if there is caching and no delay, and for logins under way if and only if, besides, their other fetches take no time |
| `KeyCache.Cache.Keys` | internal/auth/github.go:47-66 | Beside any other calls and logins: a fresh entry is returned without a fetch, exactly if it is still fresh at the test; otherwise the list that GitHub serves is returned exactly if the fetch succeeds in time, and an error if not; after a successful fetch the entry holds the list and the time |
| `KeyCache.Cache.Fetch` | internal/auth/github.go:56-65 | The call ends with the list that GitHub serves when it is asked, stored and returned, exactly if nothing fails and it takes no longer than the delay, and with an error otherwise |
| `KeyCache.Collect` | internal/auth/authenticator.go:61-78 | The loop over the allow-list stops at the first failed fetch, with that user, and only if that fetch fails; otherwise it has every list and the users whose list has the key |
| `KeyCache.Authenticate` | internal/auth/authenticator.go:58-102 | Beside any other calls and logins: a user is accepted exactly if every list was obtained and exactly one position of the allow-list matches, that user's; the other verdicts are characterized alike, and a failed fetch is given only if one fails; a login begun TTL plus delay after GitHub last served the key for a user, or later, is not accepted as that user |

## Left out

- Wire parsing, key exchange, dialing, SPDY negotiation, HTTP fetching and authorized-key parsing: whether a payload or a key decodes is a field of the request or the secret.
- The contents of pods beyond phase, readiness, deletion mark, backend label, secret reference and address: constants with nothing to prove.
- `terminalSizeQueue`: the sizes it is offered are modelled, not the sixteen-place buffer that drops the rest, nor the truncation to sixteen bits.
- internal/server/portfwd.go: its host and port checks; as a client of the lease it is a handler of `service.dfy`.
- The request loop, the output copies and the accept and channel loops run as steps of machines or as separate methods, not as goroutines of one program; `Service` and `Sessions` share the lease machine but not the request loops.
- `OpenWorkspaceSSH` beyond its lookup of the endpoint: dialing and the host-key check are library calls.
- `Attach`, `Exec` and the backend's own behaviour: their outcome is a parameter.
- The copies of `portfwd.go`: how each stream ends is an arrival; each channel is assumed to deliver at most once where `PortForward.Confluence` needs it.
- Real time, except the order of the drain timer's firing and the clock of the key cache.
- Crash recovery, several replicas, and pods deleted by hand: outside the single-coordinator contract.
- Lower-casing of characters beyond A-Z that have no ASCII lower case: they are unsafe characters either way.
- Configuration, host keys, `cmd/voidshell/main.go`, logging and error texts: no state.
