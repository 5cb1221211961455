/**
 A session over its lease, from acquireWorkspace to the exit message: runSession (internal/server/session.go) and
 proxySession (internal/server/sshproxy.go), beside any other callers of the Server.
 */
module Sessions {
  import opened Base
  import opened LeaseMachine
  import opened LeaseServer

  /** What can end the channel's requests to the client: section 6.10 of RFC 4254. */
  datatype Exit = ExitStatus(code: nat) | ExitSignal(payload: string)

  /** A request of the backend's channel. */
  datatype RemoteRequest = ExitRequest(exit: Exit, wantReply: bool) | OtherRequest(wantReply: bool)

  /** What the backend of a proxied session comes to. */
  datatype Backend = NoSsh | NoChannel | Ended(requests: seq<RemoteRequest>)

  /** How the environment runs beside one session. */
  datatype Schedule = Schedule(acquire: seq<Round>, work: seq<Turn>, release: seq<Round>)

  class Channel {
    var exits: seq<Exit>  // exit messages sent to the client

    constructor ()
      ensures exits == []
    {
      exits := [];
    }

    /** Only once the session's caller is through with its lease, or never had one. */
    method SendExit(ghost srv: Server, ghost key: Key, ghost c: CallerId, e: Exit)
      requires c in srv.At(key).callers && srv.At(key).callers[c].pc.Gone?
      modifies this
      ensures exits == old(exits) + [e]
    {
      exits := exits + [e];
    }
  }

  /** The last exit-status or exit-signal that the backend sent. */
  function LastExit(requests: seq<RemoteRequest>): Option<Exit> {
    if requests == [] then None
    else if Last(requests).ExitRequest? then Some(Last(requests).exit)
    else LastExit(requests[..|requests| - 1])
  }

  /** The requests that want a reply have been refused, each once and in order, and no other. */
  ghost predicate RefusedRight(requests: seq<RemoteRequest>, refused: seq<nat>) {
    && (forall i: nat :: i in refused <==> i < |requests| && requests[i].wantReply)
    && forall j, k | 0 <= j < k < |refused| :: refused[j] < refused[k]
  }

  lemma RefusedOneMore(requests: seq<RemoteRequest>, refused: seq<nat>, r: RemoteRequest)
    requires RefusedRight(requests, refused)
    ensures RefusedRight(requests + [r], if r.wantReply then refused + [|requests|] else refused)
  {
    forall j | 0 <= j < |refused| ensures refused[j] < |requests| {
      assert refused[j] in refused;
    }
  }

  lemma {:induction false} LastExitIsLast(requests: seq<RemoteRequest>)
    ensures LastExit(requests) == None <==> forall i | 0 <= i < |requests| :: requests[i].OtherRequest?
    ensures forall i | 0 <= i < |requests| && requests[i].ExitRequest? && (forall j | i < j < |requests| :: requests[j].OtherRequest?) ::
              LastExit(requests) == Some(requests[i].exit)
  {
    if requests != [] {
      LastExitIsLast(requests[..|requests| - 1]);
    }
  }

  /** The backend's requests, each refused if it wants a reply; the exit is kept for later. */
  method AwaitExit(requests: seq<RemoteRequest>) returns (exit: Option<Exit>, refused: seq<nat>)
    ensures exit == LastExit(requests) && RefusedRight(requests, refused)
  {
    exit, refused := None, [];
    for i := 0 to |requests|
      invariant exit == LastExit(requests[..i]) && RefusedRight(requests[..i], refused)
    {
      assert requests[..i + 1][..i] == requests[..i];
      RefusedOneMore(requests[..i], refused, requests[i]);
      assert requests[..i] + [requests[i]] == requests[..i + 1];
      if requests[i].ExitRequest? {
        exit := Some(requests[i].exit);
      }
      if requests[i].wantReply {
        refused := refused + [i];
      }
    }
    assert requests[..|requests|] == requests;
  }

  /** Where a session's caller is when the session's method has returned. */
  ghost predicate Left(srv: Server, key: Key, c: CallerId, acquired: bool, finished: bool)
    reads srv
  {
    && c in srv.At(key).callers
    && srv.At(key).callers[c].fired == acquired
    && (srv.At(key).callers[c].pc ==
        if finished then Gone else if acquired then ReleaseWaiting else Waiting)
  }

  /**
   runSession: exactly one exit status once it is through, none while it waits for the gate; the code of the
   attachment that ended well, and 1 on every failure. outcome is None when the attachment fails.
   */
  method RunSession(srv: Server, ch: Channel, key: Key, c: CallerId, plan: Schedule, outcome: Option<nat>)
    returns (acquired: bool, finished: bool)
    requires srv.Sound() && c !in srv.At(key).callers
    modifies srv, srv.leases, ch
    ensures srv.Sound() && old(srv.history) <= srv.history && Left(srv, key, c, acquired, finished)
    ensures ch.exits == old(ch.exits) +
      if !finished then [] else [ExitStatus(if acquired && outcome.Some? then outcome.value else 1)]
  {
    var code := 1;
    var r := srv.AcquireWorkspace(key, c, plan.acquire);
    if r.None? {
      return false, false;
    }
    if !r.value {
      ch.SendExit(srv, key, c, ExitStatus(code));
      return false, true;
    }
    srv.Interfere(key, c, plan.work);
    if outcome.Some? {
      code := outcome.value;
    }
    acquired := true;
    finished := srv.Release(key, c, plan.release);
    if finished {
      ch.SendExit(srv, key, c, ExitStatus(code));
    }
  }

  /** What a proxied session that held its lease sends once it has released it. */
  function ProxyExits(backend: Backend, cancelled: bool): seq<Exit> {
    if !backend.Ended? then [ExitStatus(1)] else
      var exit := LastExit(backend.requests);
      if exit.Some? then [exit.value] else if cancelled then [] else [ExitStatus(1)]
  }

  /** Position i has the last exit message of the backend. */
  predicate LastExitAt(requests: seq<RemoteRequest>, i: nat) {
    i < |requests| && requests[i].ExitRequest? && forall j | i < j < |requests| :: requests[j].OtherRequest?
  }

  predicate Silent(requests: seq<RemoteRequest>) {
    forall i | 0 <= i < |requests| :: requests[i].OtherRequest?
  }

  /** The messages sent for a session that held its lease: the backend's last exit as it is, 1 for no exit, or none. */
  ghost predicate ReportsTruly(backend: Backend, cancelled: bool, sent: seq<Exit>) {
    && (backend.NoSsh? || backend.NoChannel? ==> sent == [ExitStatus(1)])
    && (backend.Ended? ==>
          && (forall i: nat | LastExitAt(backend.requests, i) :: sent == [backend.requests[i].exit])
          && (Silent(backend.requests) ==> sent == if cancelled then [] else [ExitStatus(1)]))
  }

  lemma {:induction false} SomeExitIsLast(requests: seq<RemoteRequest>)
    ensures Silent(requests) || exists i: nat :: LastExitAt(requests, i) && LastExit(requests) == Some(requests[i].exit)
  {
    if requests != [] {
      var n := |requests| - 1;
      if requests[n].ExitRequest? {
        assert LastExitAt(requests, n);
      } else {
        SomeExitIsLast(requests[..n]);
        if !Silent(requests[..n]) {
          var i: nat :| LastExitAt(requests[..n], i) && LastExit(requests[..n]) == Some(requests[..n][i].exit);
          assert LastExitAt(requests, i);
        }
      }
    }
  }

  lemma ProxyExitsAreTrue(backend: Backend, cancelled: bool)
    ensures ReportsTruly(backend, cancelled, ProxyExits(backend, cancelled))
  {
    if backend.Ended? {
      LastExitIsLast(backend.requests);
      forall i: nat | LastExitAt(backend.requests, i) ensures ProxyExits(backend, cancelled) == [backend.requests[i].exit] {
        assert backend.requests[i].ExitRequest?;
      }
    }
  }

  /**
   proxySession: the backend's last exit message unchanged, or status 1 if it sent none and the session was not
   cancelled; the deferred second release finds nothing to do.
   */
  method ProxySession(srv: Server, ch: Channel, key: Key, c: CallerId, plan: Schedule, backend: Backend)
    returns (acquired: bool, finished: bool)
    requires srv.Sound() && c !in srv.At(key).callers
    modifies srv, srv.leases, ch
    ensures srv.Sound() && old(srv.history) <= srv.history && Left(srv, key, c, acquired, finished)
    ensures ch.exits == old(ch.exits) +
      if !finished then [] else if !acquired then [ExitStatus(1)] else ProxyExits(backend, srv.At(key).callers[c].cancelled)
    ensures finished && acquired ==>
      ReportsTruly(backend, srv.At(key).callers[c].cancelled, ch.exits[|old(ch.exits)|..])
  {
    var r := srv.AcquireWorkspace(key, c, plan.acquire);
    if r.None? {
      return false, false;
    }
    if !r.value {
      ch.SendExit(srv, key, c, ExitStatus(1));
      return false, true;
    }
    acquired := true;
    finished := HeldProxySession(srv, ch, key, c, plan, backend);
    ProxyExitsAreTrue(backend, srv.At(key).callers[c].cancelled);
  }

  /** The session while it holds its lease, and after. */
  method HeldProxySession(srv: Server, ch: Channel, key: Key, c: CallerId, plan: Schedule, backend: Backend)
    returns (finished: bool)
    requires srv.Sound() && c in srv.At(key).callers && srv.At(key).callers[c].pc.Holding?
    modifies srv, srv.leases, ch
    ensures srv.Sound() && old(srv.history) <= srv.history && Left(srv, key, c, true, finished)
    ensures ch.exits == old(ch.exits) + if !finished then [] else ProxyExits(backend, srv.At(key).callers[c].cancelled)
  {
    srv.Interfere(key, c, plan.work);
    var exit := None;
    if backend.Ended? {
      var refused;
      exit, refused := AwaitExit(backend.requests);
    }
    finished := srv.Release(key, c, plan.release);
    if finished {
      Report(srv, ch, key, c, backend, exit);
      var again := srv.Release(key, c, plan.release);
    }
  }

  method Report(srv: Server, ch: Channel, key: Key, c: CallerId, backend: Backend, exit: Option<Exit>)
    requires c in srv.At(key).callers && srv.At(key).callers[c].pc.Gone?
    requires exit == if backend.Ended? then LastExit(backend.requests) else None
    modifies ch
    ensures ch.exits == old(ch.exits) + ProxyExits(backend, srv.At(key).callers[c].cancelled)
  {
    if !backend.Ended? {
      ch.SendExit(srv, key, c, ExitStatus(1));
    } else if exit.Some? {
      ch.SendExit(srv, key, c, exit.value);
    } else if !srv.At(key).callers[c].cancelled {
      ch.SendExit(srv, key, c, ExitStatus(1));
    }
  }

  /** At most one exit message, whatever the backend sends. */
  lemma OneExitAtMost(backend: Backend, cancelled: bool)
    ensures |ProxyExits(backend, cancelled)| <= 1
    ensures ProxyExits(backend, cancelled) == [] <==>
      backend.Ended? && cancelled && (forall i | 0 <= i < |backend.requests| :: backend.requests[i].OtherRequest?)
  {
    if backend.Ended? {
      LastExitIsLast(backend.requests);
    }
  }
}
