/**
 Server and workspaceLease as objects updated in place (internal/server/lifecycle.go), each atomic section proved
 to be one step of the key's LeaseMachine and to leave every other key alone.
 */
module LeaseServer {
  import opened Base
  import opened LeaseMachine
  import LeaseRuns

  type Key = string

  class WorkspaceLease {
    ghost const key: Key
    ghost const generation: nat
    var gate: nat  // tokens in the channel
    var users: int
    var active: int

    constructor (ghost key: Key, ghost generation: nat)
      ensures Value() == FRESH && this.key == key && this.generation == generation
    {
      this.key, this.generation := key, generation;
      gate, users, active := 1, 0, 0;
    }

    function Value(): Lease
      reads this
    {
      Lease(gate, users, active)
    }

    /** What each statement does to the lease object itself. */
    method Update(a: Action)
      requires a.TakeGate? || a.TakeGateAgain? ==> gate > 0
      modifies this
      ensures Value() == LeaseAfter(old(Value()), a)
    {
      match a {
        case Start => users := users + 1;
        case TakeGate => gate := gate - 1;
        case TakeGateAgain => gate := gate - 1;
        case Publish => gate := gate + 1;
        case PutBack => gate := gate + 1;
        case Join => active := active + 1;
        case Decrement => active := active - 1;
        case Drop => users := users - 1;
        case _ =>
      }
    }
  }

  function Values(ls: seq<WorkspaceLease>): seq<Lease>
    reads ls
  {
    seq(|ls|, i requires 0 <= i < |ls| reads ls => ls[i].Value())
  }

  /**
   What Go keeps for one key outside the Server: the lease objects on the heap, in order of allocation, and on the
   goroutines' stacks which lease each caller refers to and where it is. The log is the model's own.
   */
  datatype Account = Account(current: Option<nat>, heap: seq<WorkspaceLease>, callers: map<CallerId, Caller>, log: seq<Event>)

  const NO_ACCOUNT := Account(None, [], map[], [])

  /** Somebody's step at some key. */
  datatype Turn = Turn(key: Key, c: CallerId, a: Action)

  /** The key after a schedule of turns; a turn of another key, or one that cannot be taken, is skipped. */
  function Played(history: seq<Turn>, k: Key): State {
    if history == [] then INIT else
      var s := Played(history[..|history| - 1], k);
      var x := Last(history);
      if x.key == k && WellFormed(s) && Enabled(s, x.c, x.a) then Apply(s, x.c, x.a) else s
  }

  lemma PlayedOneMore(history: seq<Turn>, x: Turn, k: Key)
    ensures var s := Played(history, k);
      Played(history + [x], k) ==
        if x.key == k && WellFormed(s) && Enabled(s, x.c, x.a) then Apply(s, x.c, x.a) else s
  {
    assert (history + [x])[..|history|] == history;
  }

  /** What a schedule leaves of a key is the end of a run of its step machine. */
  lemma {:induction false} PlayedIsRun(history: seq<Turn>, k: Key) returns (trace: seq<State>)
    ensures LeaseRuns.IsRun(trace) && Last(trace) == Played(history, k)
  {
    if history == [] {
      trace := [INIT];
    } else {
      trace := PlayedIsRun(history[..|history| - 1], k);
      var s, x := Last(trace), Last(history);
      if x.key == k && WellFormed(s) && Enabled(s, x.c, x.a) {
        var before := trace;
        trace := before + [Apply(s, x.c, x.a)];
        assert LeaseRuns.Next(s, Last(trace));
        forall i | 0 <= i < |trace| - 1 ensures LeaseRuns.Next(trace[i], trace[i + 1]) {
          if i < |before| - 1 {
            assert LeaseRuns.Next(before[i], before[i + 1]);
          }
        }
      }
    }
  }

  /** What happens before one statement of a caller, and how that statement comes out if it can go two ways. */
  datatype Round = Round(others: seq<Turn>, ok: bool)

  /** A turn that is not a statement of caller c of the key; its context may be cancelled at any time. */
  predicate Foreign(t: Turn, key: Key, c: CallerId) {
    t.key != key || t.c != c || t.a.Cancel?
  }

  function Foreigners(others: seq<Turn>, key: Key, c: CallerId): seq<Turn> {
    if others == [] then [] else
      Foreigners(others[..|others| - 1], key, c) + if Foreign(Last(others), key, c) then [Last(others)] else []
  }

  /** Nobody's turn is lost, but the caller's own statements. */
  lemma {:induction false} ForeignersAreKept(others: seq<Turn>, key: Key, c: CallerId, t: Turn)
    ensures multiset(Foreigners(others, key, c))[t] ==
      if t.key == key && t.c == c && !t.a.Cancel? then 0 else multiset(others)[t]
  {
    if others != [] {
      assert others == others[..|others| - 1] + [Last(others)];
      ForeignersAreKept(others[..|others| - 1], key, c, t);
    }
  }

  /** A waiter that its context gives no reason to leave. */
  predicate Stays(v: Caller) {
    v.pc.Waiting? ==> !v.cancelled
  }

  function RoundAt(rounds: seq<Round>, i: nat): Round {
    if i < |rounds| then rounds[i] else Round([], false)
  }

  /** A caller that others have been running beside: only its context may have been cancelled. */
  predicate SameCaller(v: Caller, v': Caller) {
    v' == v.(cancelled := v'.cancelled) && (v.cancelled ==> v'.cancelled)
  }

  /** What action a leaves of caller v, for some value of its context and of its lease. */
  predicate Follows(v: Caller, a: Action, v': Caller) {
    && v'.lease == v.lease
    && v'.fired == (v.fired || a.CallRelease?) && (v.cancelled ==> v'.cancelled)
    && (v'.pc == CallerAfter(v.(cancelled := true), FRESH, a).pc
        || v'.pc == CallerAfter(v.(cancelled := false), FRESH.(active := 1), a).pc)
  }

  /** Statements that a caller there can always run, whatever the others do. */
  predicate Private(pc: PC, a: Action) {
    match a
    case CheckContext => pc.Entered?
    case Decide => pc.Checked?
    case FinishEnsure(_) => pc.Ensuring?
    case BeginCleanup => pc.SetupFailed?
    case FinishDelete(_) => pc.SetupCleanup? || pc.Cleaning?
    case Join => pc.Joining?
    case Publish => pc.Publishing?
    case CallRelease => pc.Holding?
    case Decrement => pc.Releasing?
    case AfterDecrement => pc.Released?
    case PutBack => pc.Returning?
    case Drop => pc.Dropping?
    case _ => false
  }

  class Server {
    var workspaces: map<Key, WorkspaceLease>
    var accounts: map<Key, Account>
    ghost var leases: set<WorkspaceLease>
    ghost var history: seq<Turn>  // every turn offered, whether it could be taken or not

    function At(k: Key): Account
      reads `accounts
    {
      if k in accounts then accounts[k] else NO_ACCOUNT
    }

    ghost predicate Valid()
      reads `workspaces, `accounts, `leases
    {
      forall k: Key ::
        && (forall i | 0 <= i < |At(k).heap| ::
              At(k).heap[i] in leases && At(k).heap[i].key == k && At(k).heap[i].generation == i)
        && (k in workspaces <==> At(k).current.Some?)
        && (k in workspaces ==> At(k).current.value < |At(k).heap| && workspaces[k] == At(k).heap[At(k).current.value])
    }

    /** The key's lease, as the step machine sees it. */
    ghost function View(k: Key): State
      requires Valid()
      reads `workspaces, `accounts, `leases, leases
    {
      var a := At(k);
      State(a.current, Values(a.heap), a.callers, a.log)
    }

    /** Each key's lease is where the steps taken lead from the start, which keeps its invariant. */
    ghost predicate Sound()
      reads this, leases
    {
      Valid() && forall k: Key :: Invariant(View(k)) && View(k) == Played(history, k)
    }

    constructor ()
      ensures Sound() && history == [] && forall k: Key :: View(k) == INIT
    {
      workspaces, accounts, leases, history := map[], map[], {}, [];
    }

    /** A key's view depends on its account and on the lease objects in it only. */
    twostate lemma SameView(k: Key)
      requires old(Valid()) && Valid() && At(k) == old(At(k))
      requires forall i | 0 <= i < |At(k).heap| :: At(k).heap[i].Value() == old(At(k).heap[i].Value())
      ensures View(k) == old(View(k))
    {
      assert Values(At(k).heap) == old(Values(At(k).heap));
    }

    /** Look the key up, and install a fresh lease if there is none. */
    method Install(key: Key)
      requires Valid()
      modifies this
      ensures Valid() && fresh(leases - old(leases))
      ensures View(key) == Entering(old(View(key))) && history == old(history)
      ensures At(key).callers == old(At(key).callers) && forall k | k != key :: At(k) == old(At(k))
      ensures forall k | k != key :: View(k) == old(View(k))
    {
      if key !in workspaces {
        var a := At(key);
        var l := new WorkspaceLease(key, |a.heap|);
        leases := leases + {l};
        accounts := accounts[key := a.(current := Some(|a.heap|), heap := a.heap + [l])];
        workspaces := workspaces[key := l];
        assert forall k | k != key :: At(k) == old(At(k));
        assert At(key).heap == a.heap + [l] && l.key == key && l.generation == |a.heap| && workspaces[key] == At(key).heap[|a.heap|];
        assert Valid();
        forall k | k != key ensures View(k) == old(View(k)) {
          SameView(k);
        }
        assert Values(At(key).heap) == old(Values(At(key).heap)) + [FRESH];
      }
    }

    /** Caller c becomes v, after action a on its lease. */
    method Move(key: Key, c: CallerId, v: Caller, a: Action, events: seq<Event>)
      requires Valid() && v.lease < |At(key).heap|
      requires a.TakeGate? || a.TakeGateAgain? ==> At(key).heap[v.lease].gate > 0
      modifies this`accounts, At(key).heap[v.lease]
      ensures Valid() && At(key).heap == old(At(key).heap)
      ensures At(key).heap[v.lease].Value() == LeaseAfter(old(At(key).heap[v.lease].Value()), a)
      ensures At(key).callers == old(At(key).callers)[c := v] && forall k | k != key :: At(k) == old(At(k))
      ensures View(key) == Put(old(View(key)), c, v, LeaseAfter(old(View(key).leases[v.lease]), a)).(log := old(At(key).log) + events)
      ensures forall k | k != key :: View(k) == old(View(k))
    {
      var l := At(key).heap[v.lease];
      l.Update(a);
      forall k | k != key ensures View(k) == old(View(k)) {
        SameView(k);
      }
      assert Values(At(key).heap) == old(Values(At(key).heap))[v.lease := l.Value()];
      SetCaller(key, c, v, events);
    }

    /** Caller c becomes v, with no lease changed. */
    method SetCaller(key: Key, c: CallerId, v: Caller, events: seq<Event>)
      requires Valid()
      modifies this`accounts
      ensures Valid() && At(key).heap == old(At(key).heap)
      ensures At(key).callers == old(At(key).callers)[c := v] && forall k | k != key :: At(k) == old(At(k))
      ensures View(key) == old(View(key)).(callers := old(At(key).callers)[c := v], log := old(At(key).log) + events)
      ensures forall k | k != key :: View(k) == old(View(k))
    {
      var account := At(key);
      accounts := accounts[key := account.(callers := account.callers[c := v], log := account.log + events)];
      assert forall k | k != key :: At(k) == old(At(k));
      assert Valid();
      forall k | k != key ensures View(k) == old(View(k)) {
        SameView(k);
      }
    }

    method Forget(key: Key)
      requires Valid()
      modifies this
      ensures Valid() && leases == old(leases) && history == old(history)
      ensures View(key) == old(View(key)).(entry := None)
      ensures At(key).callers == old(At(key).callers) && forall k | k != key :: At(k) == old(At(k))
      ensures forall k | k != key :: View(k) == old(View(k))
    {
      workspaces := workspaces - {key};
      accounts := accounts[key := At(key).(current := None)];
      assert forall k | k != key :: At(k) == old(At(k));
      assert At(key) == old(At(key)).(current := None);
      assert Valid();
      assert Values(At(key).heap) == old(Values(At(key).heap));
      forall k | k != key ensures View(k) == old(View(k)) {
        SameView(k);
      }
    }

    /** A step taken is recorded. */
    ghost method Record(before: seq<Turn>, key: Key, c: CallerId, a: Action, was: State)
      requires Valid() && history == before && was == Played(before, key) && WellFormed(was) && Enabled(was, c, a)
      requires View(key) == Apply(was, c, a) && Invariant(View(key))
      requires forall k | k != key :: Invariant(View(k)) && View(k) == Played(before, k)
      modifies this`history
      ensures Sound() && history == before + [Turn(key, c, a)]
    {
      forall k: Key ensures Played(before + [Turn(key, c, a)], k) == View(k) {
        PlayedOneMore(before, Turn(key, c, a), k);
      }
      history := history + [Turn(key, c, a)];
    }

    /** A turn that cannot be taken is recorded too. */
    ghost method RecordSkipped(t: Turn)
      requires Sound() && !Enabled(View(t.key), t.c, t.a)
      modifies this`history
      ensures Sound() && history == old(history) + [t]
    {
      forall k: Key ensures Played(history + [t], k) == View(k) {
        PlayedOneMore(history, t, k);
      }
      history := history + [t];
    }

    /** Since the key's calls were log, an EnsureWorkspace of it has failed. */
    ghost predicate FailedSince(key: Key, log: seq<Event>)
      reads `accounts
    {
      exists i :: |log| <= i < |At(key).log| && At(key).log[i] == EnsureEnd(false)
    }

    /** So everything proved of runs holds of every key of the server. */
    lemma KeyIsInARun(k: Key) returns (trace: seq<State>)
      requires Sound()
      ensures LeaseRuns.IsRun(trace) && Last(trace) == View(k)
    {
      trace := PlayedIsRun(history, k);
      assert View(k) == Played(history, k);
    }

    /** No caller but c of this key has moved. */
    twostate predicate OthersStay(key: Key, c: CallerId)
      reads this
    {
      forall k, d | d in old(At(k).callers) && !(k == key && d == c) ::
        d in At(k).callers && At(k).callers[d] == old(At(k).callers[d])
    }

    /** Under mu: find or install the key's lease and count one more user. */
    method Arrive(key: Key, c: CallerId)
      requires Valid() && WellFormed(View(key)) && c !in At(key).callers
      modifies this, leases
      ensures Valid() && fresh(leases - old(leases)) && history == old(history)
      ensures View(key) == Apply(old(View(key)), c, Start)
      ensures forall k | k != key :: At(k) == old(At(k))
      ensures forall k | k != key :: View(k) == old(View(k))
      ensures At(key).log == old(At(key).log)
      ensures c in At(key).callers && At(key).callers[c].pc.Waiting? && !At(key).callers[c].fired
      ensures OthersStay(key, c)
    {
      assert At(key).log == View(key).log;
      Install(key);
      var v := Caller(At(key).current.value, Waiting, false, false);
      Move(key, c, v, Start, []);
      assert At(key).log == View(key).log;
    }

    method Enter(key: Key, c: CallerId)
      requires Sound() && c !in At(key).callers
      modifies this, leases
      ensures Sound() && history == old(history) + [Turn(key, c, Start)] && fresh(leases - old(leases))
      ensures View(key) == Apply(old(View(key)), c, Start)
      ensures forall k | k != key :: At(k) == old(At(k))
      ensures forall k | k != key :: View(k) == old(View(k))
      ensures At(key).log == old(At(key).log)
      ensures c in At(key).callers && At(key).callers[c].pc.Waiting? && !At(key).callers[c].fired
      ensures OthersStay(key, c)
    {
      ghost var was := View(key);
      StepKeepsInvariant(was, c, Start);
      Arrive(key, c);
      Record(history, key, c, Start, was);
    }

    predicate CanRun(key: Key, c: CallerId, a: Action)
      reads this, At(key).heap
    {
      && c in At(key).callers
      && At(key).callers[c].lease < |At(key).heap|
      && Ready(At(key).callers[c], At(key).heap[At(key).callers[c].lease].Value(), a)
    }

    lemma StepFits(key: Key, c: CallerId, a: Action)
      requires Sound() && CanRun(key, c, a)
      ensures Enabled(View(key), c, a) && Invariant(Apply(View(key), c, a))
      ensures View(key).leases[At(key).callers[c].lease] == At(key).heap[At(key).callers[c].lease].Value()
    {
      StepKeepsInvariant(View(key), c, a);
    }

    /** Any later statement of a caller of the key. */
    method Step(key: Key, c: CallerId, a: Action)
      requires Valid() && WellFormed(View(key)) && CanRun(key, c, a)
      modifies this, leases
      ensures Valid() && fresh(leases - old(leases)) && history == old(history)
      ensures View(key) == Apply(old(View(key)), c, a)
      ensures forall k | k != key :: At(k) == old(At(k))
      ensures forall k | k != key :: View(k) == old(View(k))
      ensures c in At(key).callers && OthersStay(key, c)
      ensures At(key).callers[c] == CallerAfter(old(At(key).callers[c]), old(At(key).heap[At(key).callers[c].lease].Value()), a)
    {
      var me := At(key).callers[c];
      var l := At(key).heap[me.lease];
      Move(key, c, CallerAfter(me, l.Value(), a), a, Logged(l.Value(), a));
      if a.Drop? && l.users == 0 {
        assert View(key).leases[me.lease] == l.Value();
        Forget(key);
      }
    }

    method Perform(key: Key, c: CallerId, a: Action)
      requires Sound() && CanRun(key, c, a)
      modifies this, leases
      ensures Sound() && history == old(history) + [Turn(key, c, a)] && fresh(leases - old(leases))
      ensures View(key) == Apply(old(View(key)), c, a)
      ensures a.FinishEnsure? ==> At(key).log == old(At(key).log) + [EnsureEnd(a.ok)]
      ensures a.FinishDelete? ==> At(key).log == old(At(key).log) + [DeleteEnd(a.ok)]
      ensures At(key).log == old(At(key).log) + Logged(old(At(key).heap[At(key).callers[c].lease].Value()), a)
      ensures forall k | k != key :: At(k) == old(At(k))
      ensures forall k | k != key :: View(k) == old(View(k))
      ensures c in At(key).callers && OthersStay(key, c)
      ensures At(key).callers[c] == CallerAfter(old(At(key).callers[c]), old(At(key).heap[At(key).callers[c].lease].Value()), a)
    {
      ghost var was := View(key);
      StepFits(key, c, a);
      assert At(key).log == was.log;
      Step(key, c, a);
      assert At(key).log == View(key).log;
      Record(history, key, c, a, was);
    }

    /** Perform, as far as the caller itself and the log are concerned. */
    method Do(key: Key, c: CallerId, a: Action)
      requires Sound() && CanRun(key, c, a)
      modifies this, leases
      ensures Sound() && old(history) <= history && fresh(leases - old(leases)) && c in At(key).callers
      ensures At(key).callers[c] == CallerAfter(old(At(key).callers[c]), old(At(key).heap[At(key).callers[c].lease].Value()), a)
      ensures At(key).log == old(At(key).log) + Logged(old(At(key).heap[At(key).callers[c].lease].Value()), a)
    {
      StepFits(key, c, a);
      ghost var was := View(key);
      Perform(key, c, a);
      assert At(key).log == View(key).log && was.log == old(At(key).log);
    }

    /** Run action a of c if it can run now; no other caller moves. */
    method Try(key: Key, c: CallerId, a: Action) returns (ran: bool)
      requires Sound()
      modifies this, leases
      ensures Sound() && history == old(history) + [Turn(key, c, a)] && fresh(leases - old(leases))
      ensures ran == old(if a.Start? then c !in At(key).callers else CanRun(key, c, a))
      ensures ran && a.Start? ==> c in At(key).callers && At(key).callers[c].pc.Waiting? && !At(key).callers[c].fired
      ensures ran && !a.Start? ==> c in At(key).callers && Follows(old(At(key).callers[c]), a, At(key).callers[c])
      ensures forall k :: old(At(k).log) <= At(k).log
      ensures ran && a.FinishDelete? ==> At(key).log == old(At(key).log) + [DeleteEnd(a.ok)]
      ensures ran && a.Cancel? ==> SameCaller(old(At(key).callers[c]), At(key).callers[c])
      ensures !ran ==> forall k :: View(k) == old(View(k))
      ensures !ran && !a.Start? ==> !CanRun(key, c, a)
      ensures ran && a.FinishEnsure? ==> At(key).log == old(At(key).log) + [EnsureEnd(a.ok)]
      ensures OthersStay(key, c) && (!ran && c in old(At(key).callers) ==> At(key).callers == old(At(key).callers))
    {
      ran := if a.Start? then c !in At(key).callers else CanRun(key, c, a);
      if !ran {
        assert View(key).callers == At(key).callers && Invariant(View(key));
        RecordSkipped(Turn(key, c, a));
        return;
      }
      if a.Start? {
        Enter(key, c);
      } else {
        Perform(key, c, a);
      }
    }

    /** One turn: of another caller, of this key or of another, or of whoever cancels c's context. */
    method TakeTurn(key: Key, c: CallerId, t: Turn)
      requires Sound() && c in At(key).callers
      modifies this, leases
      ensures Sound() && history == old(history) + (if Foreign(t, key, c) then [t] else []) && fresh(leases - old(leases)) && c in At(key).callers
      ensures old(At(key).log) <= At(key).log
      ensures SameCaller(old(At(key).callers[c]), At(key).callers[c])
    {
      if Foreign(t, key, c) {
        var ran := Try(t.key, t.c, t.a);
      }
    }

    /** Others run, any steps they can. */
    method Interfere(key: Key, c: CallerId, others: seq<Turn>)
      requires Sound() && c in At(key).callers
      modifies this, leases
      ensures Sound() && history == old(history) + Foreigners(others, key, c) && fresh(leases - old(leases)) && c in At(key).callers
      ensures old(At(key).log) <= At(key).log
      ensures SameCaller(old(At(key).callers[c]), At(key).callers[c])
    {
      for i := 0 to |others|
        invariant Sound() && history == old(history) + Foreigners(others[..i], key, c)
        invariant fresh(leases - old(leases)) && c in At(key).callers
        invariant old(At(key).log) <= At(key).log
        invariant SameCaller(old(At(key).callers[c]), At(key).callers[c])
      {
        assert others[..i + 1][..i] == others[..i];
        TakeTurn(key, c, others[i]);
      }
      assert others[..|others|] == others;
    }

    lemma PrivateCanRun(key: Key, c: CallerId, a: Action)
      requires Sound() && c in At(key).callers
      ensures Private(At(key).callers[c].pc, a) ==> CanRun(key, c, a)
    {
      var s := View(key);
      assert s.callers == At(key).callers && Invariant(s);
      if Plays(s.callers[c].pc, Insider) {
        InsiderIsAlone(s, c);
      }
    }

    /** A statement of c that the others cannot prevent, after they have run. */
    method Next(key: Key, c: CallerId, a: Action, others: seq<Turn>)
      requires Sound() && c in At(key).callers && Private(At(key).callers[c].pc, a)
      modifies this, leases
      ensures Sound() && history == old(history) + Foreigners(others, key, c) + [Turn(key, c, a)] && fresh(leases - old(leases)) && c in At(key).callers
      ensures Follows(old(At(key).callers[c]), a, At(key).callers[c])
      ensures old(At(key).log) <= At(key).log
      ensures a.FinishEnsure? ==> At(key).log != [] && Last(At(key).log) == EnsureEnd(a.ok)
      ensures a.FinishDelete? ==> At(key).log != [] && Last(At(key).log) == DeleteEnd(a.ok)
    {
      Interfere(key, c, others);
      PrivateCanRun(key, c, a);
      var ran := Try(key, c, a);
    }

    lemma CancelledCanLeave(key: Key, c: CallerId)
      requires Sound() && c in At(key).callers
      ensures !Stays(At(key).callers[c]) ==> CanRun(key, c, LeaveQueue)
    {
      assert View(key).callers == At(key).callers && Invariant(View(key));
    }

    /** One look at the select on the gate; its other branch, leaving, needs a cancelled context. */
    method PollGate(key: Key, c: CallerId, take: Action, contextFirst: bool) returns (left: bool, taken: bool)
      requires Sound() && c in At(key).callers && take in {TakeGate, TakeGateAgain}
      modifies this, leases
      ensures Sound() && old(history) <= history && fresh(leases - old(leases)) && c in At(key).callers
      ensures !(left && taken) && (left ==> take.TakeGate? && old(At(key).callers[c].cancelled))
      ensures var v, v' := old(At(key).callers[c]), At(key).callers[c];
        if left then Follows(v, LeaveQueue, v') else if taken then Follows(v, take, v') else v' == v
      ensures old(At(key).log) <= At(key).log
      ensures !left && !taken ==> !CanRun(key, c, take) && (take.TakeGate? ==> Stays(At(key).callers[c]))
    {
      left, taken := false, false;
      if take.TakeGate? && (contextFirst || !CanRun(key, c, take)) {
        CancelledCanLeave(key, c);
        left := Try(key, c, LeaveQueue);
      }
      if !left {
        taken := Try(key, c, take);
      }
    }

    /** The select on the gate. */
    method AwaitGate(key: Key, c: CallerId, take: Action, rounds: seq<Round>) returns (left: bool, i: nat)
      requires Sound() && c in At(key).callers && take in {TakeGate, TakeGateAgain}
      modifies this, leases
      ensures Sound() && old(history) <= history && fresh(leases - old(leases)) && c in At(key).callers
      ensures old(At(key).log) <= At(key).log
      ensures var v, v' := old(At(key).callers[c]), At(key).callers[c];
        if i >= |rounds| then SameCaller(v, v') else Follows(v, if left then LeaveQueue else take, v')
      ensures |rounds| > 0 && i >= |rounds| ==> !CanRun(key, c, take) && (take.TakeGate? ==> Stays(At(key).callers[c]))
      ensures left ==> old(At(key).callers[c].cancelled) || At(key).callers[c].cancelled
      ensures left ==> take.TakeGate? && i < |rounds|
    {
      left, i := false, 0;
      while i < |rounds|
        invariant Sound() && old(history) <= history && fresh(leases - old(leases)) && c in At(key).callers
        invariant i > 0 ==> !CanRun(key, c, take) && (take.TakeGate? ==> Stays(At(key).callers[c]))
        invariant old(At(key).log) <= At(key).log
        invariant !left && SameCaller(old(At(key).callers[c]), At(key).callers[c])
      {
        Interfere(key, c, rounds[i].others);
        var taken;
        left, taken := PollGate(key, c, take, rounds[i].ok);
        if left || taken {
          return;
        }
        i := i + 1;
      }
    }

    /** The gate goes back, or was never taken, and the caller drops its use of the lease. */
    method LeaveLease(key: Key, c: CallerId, rounds: seq<Round>, i: nat)
      requires Sound() && c in At(key).callers
      requires At(key).callers[c].pc.Returning? || At(key).callers[c].pc.Dropping?
      modifies this, leases
      ensures Sound() && old(history) <= history && fresh(leases - old(leases)) && c in At(key).callers
      ensures old(At(key).log) <= At(key).log
      ensures old(At(key).callers[c].cancelled) ==> At(key).callers[c].cancelled
      ensures At(key).callers[c].pc.Gone? && At(key).callers[c].fired == old(At(key).callers[c].fired)
    {
      if At(key).callers[c].pc.Returning? {
        Next(key, c, PutBack, RoundAt(rounds, i).others);
      }
      Next(key, c, Drop, RoundAt(rounds, i + 1).others);
    }

    /** The first holder provisions the workspace; a failed setup is cleaned up before anyone else is let in. */
    method Provision(key: Key, c: CallerId, rounds: seq<Round>, i: nat)
      requires Sound() && c in At(key).callers && At(key).callers[c].pc.Ensuring?
      modifies this, leases
      ensures Sound() && old(history) <= history && fresh(leases - old(leases)) && c in At(key).callers
      ensures old(At(key).log) <= At(key).log
      ensures At(key).callers[c].pc == (if RoundAt(rounds, i).ok then Joining else Returning)
      ensures !RoundAt(rounds, i).ok ==> At(key).log != [] && Last(At(key).log) == DeleteEnd(RoundAt(rounds, i + 2).ok)
      ensures !RoundAt(rounds, i).ok ==> FailedSince(key, old(At(key).log))
      ensures At(key).callers[c].fired == old(At(key).callers[c].fired)
    {
      EnsureEnds(key, c, RoundAt(rounds, i));
      if !RoundAt(rounds, i).ok {
        ghost var n := |At(key).log| - 1;
        Next(key, c, BeginCleanup, RoundAt(rounds, i + 1).others);
        DeleteEnds(key, c, RoundAt(rounds, i + 2));
        assert At(key).log[n] == EnsureEnd(false);
      }
    }

    /** EnsureWorkspace returns. */
    method EnsureEnds(key: Key, c: CallerId, round: Round)
      requires Sound() && c in At(key).callers && At(key).callers[c].pc.Ensuring?
      modifies this, leases
      ensures Sound() && old(history) <= history && fresh(leases - old(leases)) && c in At(key).callers
      ensures At(key).callers[c].pc == (if round.ok then Joining else SetupFailed)
      ensures At(key).callers[c].fired == old(At(key).callers[c].fired)
      ensures old(At(key).log) <= At(key).log && |At(key).log| > |old(At(key).log)| && Last(At(key).log) == EnsureEnd(round.ok)
    {
      Interfere(key, c, round.others);
      PrivateCanRun(key, c, FinishEnsure(round.ok));
      var ran := Try(key, c, FinishEnsure(round.ok));
    }

    /** DeletePod returns. */
    method DeleteEnds(key: Key, c: CallerId, round: Round)
      requires Sound() && c in At(key).callers
      requires At(key).callers[c].pc.SetupCleanup? || At(key).callers[c].pc.Cleaning?
      modifies this, leases
      ensures Sound() && old(history) <= history && fresh(leases - old(leases)) && c in At(key).callers
      ensures At(key).callers[c].pc.Returning? && At(key).callers[c].fired == old(At(key).callers[c].fired)
      ensures old(At(key).log) <= At(key).log && At(key).log != [] && Last(At(key).log) == DeleteEnd(round.ok)
    {
      Next(key, c, FinishDelete(round.ok), round.others);
    }

    lemma UpWhileHeld(key: Key, c: CallerId)
      requires Sound() && c in At(key).callers && Plays(At(key).callers[c].pc, Counted)
      ensures |At(key).log| % 4 == 2 && Last(At(key).log) == EnsureEnd(true)
    {
      assert View(key).callers == At(key).callers && View(key).log == At(key).log && Invariant(View(key));
      LeaseRuns.HolderMeansUp(View(key), c);
    }

    /** Inside the gate: the look at the context, after others have run. */
    method LookAtContext(key: Key, c: CallerId, others: seq<Turn>) returns (live: bool)
      requires Sound() && c in At(key).callers && At(key).callers[c].pc.Entered?
      modifies this, leases
      ensures Sound() && old(history) <= history && fresh(leases - old(leases)) && c in At(key).callers
      ensures old(At(key).log) <= At(key).log
      ensures At(key).callers[c].pc == if live then Checked else Returning
      ensures live <==> !At(key).callers[c].cancelled
      ensures At(key).callers[c].fired == old(At(key).callers[c].fired)
    {
      Interfere(key, c, others);
      PrivateCanRun(key, c, CheckContext);
      live := !At(key).callers[c].cancelled;
      Do(key, c, CheckContext);
    }

    /** The look at active: whether this is the first holder. */
    method LookForHolders(key: Key, c: CallerId, others: seq<Turn>) returns (first: bool)
      requires Sound() && c in At(key).callers && At(key).callers[c].pc.Checked?
      modifies this, leases
      ensures Sound() && old(history) <= history && fresh(leases - old(leases)) && c in At(key).callers
      ensures old(At(key).log) <= At(key).log
      ensures At(key).callers[c].pc == if first then Ensuring else Joining
      ensures At(key).callers[c].fired == old(At(key).callers[c].fired)
    {
      Interfere(key, c, others);
      PrivateCanRun(key, c, Decide);
      first := At(key).heap[At(key).callers[c].lease].active == 0;
      Do(key, c, Decide);
    }

    /** Inside the gate: look at the context, then at active, and provision if this is the first holder. */
    method Admit(key: Key, c: CallerId, rounds: seq<Round>, i: nat)
      requires Sound() && c in At(key).callers && At(key).callers[c].pc.Entered?
      modifies this, leases
      ensures Sound() && old(history) <= history && fresh(leases - old(leases)) && c in At(key).callers
      ensures old(At(key).log) <= At(key).log
      ensures At(key).callers[c].pc.Joining? || At(key).callers[c].pc.Returning?
      ensures At(key).callers[c].pc.Returning? ==> At(key).callers[c].cancelled || FailedSince(key, old(At(key).log))
      ensures At(key).callers[c].fired == old(At(key).callers[c].fired)
    {
      var live := LookAtContext(key, c, RoundAt(rounds, i).others);
      if live {
        var first := LookForHolders(key, c, RoundAt(rounds, i + 1).others);
        if first {
          Provision(key, c, rounds, i + 2);
        }
      }
    }

    /**
     acquireWorkspace beside any other callers. None: still waiting for the gate when the schedule ends;
     otherwise whether a release function was returned.
     */
    method AcquireWorkspace(key: Key, c: CallerId, rounds: seq<Round>) returns (r: Option<bool>)
      requires Sound() && c !in At(key).callers
      modifies this, leases
      ensures Sound() && old(history) <= history && fresh(leases - old(leases)) && c in At(key).callers
      ensures At(key).callers[c].pc == (if r == None then Waiting else if r == Some(true) then Holding else Gone)
      ensures !At(key).callers[c].fired
      ensures r == Some(false) ==> At(key).callers[c].cancelled || FailedSince(key, old(At(key).log))
      ensures r == None && |rounds| > 0 ==> !CanRun(key, c, TakeGate) && !At(key).callers[c].cancelled
      ensures r == Some(true) ==> |At(key).log| % 4 == 2 && Last(At(key).log) == EnsureEnd(true)
    {
      var entered := Try(key, c, Start);
      var left, i := AwaitGate(key, c, TakeGate, rounds);
      if i >= |rounds| {
        return None;
      }
      r := AfterGate(key, c, rounds, i + 1);
    }

    method AfterGate(key: Key, c: CallerId, rounds: seq<Round>, i: nat) returns (r: Option<bool>)
      requires Sound() && c in At(key).callers && !At(key).callers[c].fired
      requires At(key).callers[c].pc.Entered? || (At(key).callers[c].pc.Dropping? && At(key).callers[c].cancelled)
      modifies this, leases
      ensures Sound() && old(history) <= history && fresh(leases - old(leases)) && c in At(key).callers
      ensures r.Some? && At(key).callers[c].pc == (if r.value then Holding else Gone)
      ensures !At(key).callers[c].fired
      ensures !r.value ==> At(key).callers[c].cancelled || FailedSince(key, old(At(key).log))
      ensures r.value ==> |At(key).log| % 4 == 2 && Last(At(key).log) == EnsureEnd(true)
    {
      if At(key).callers[c].pc.Entered? {
        Admit(key, c, rounds, i);
      }
      if At(key).callers[c].pc.Joining? {
        JoinHolders(key, c, rounds, i + 6);
        return Some(true);
      }
      LeaveLease(key, c, rounds, i + 8);
      return Some(false);
    }

    /** One holder more, and the gate goes back. */
    method JoinHolders(key: Key, c: CallerId, rounds: seq<Round>, i: nat)
      requires Sound() && c in At(key).callers && At(key).callers[c].pc.Joining?
      modifies this, leases
      ensures Sound() && old(history) <= history && fresh(leases - old(leases)) && c in At(key).callers
      ensures At(key).callers[c].pc.Holding? && At(key).callers[c].fired == old(At(key).callers[c].fired)
      ensures |At(key).log| % 4 == 2 && Last(At(key).log) == EnsureEnd(true)
    {
      Next(key, c, Join, RoundAt(rounds, i).others);
      Next(key, c, Publish, RoundAt(rounds, i + 1).others);
      UpWhileHeld(key, c);
    }

    lemma NotYetFired(key: Key, c: CallerId)
      requires Sound() && c in At(key).callers && At(key).callers[c].pc.Holding?
      ensures !At(key).callers[c].fired
    {
      assert View(key).callers == At(key).callers && Invariant(View(key));
    }

    /** The returned release function; a second call changes nothing. False: still waiting for the gate. */
    method Release(key: Key, c: CallerId, rounds: seq<Round>) returns (done: bool)
      requires Sound() && c in At(key).callers
      requires At(key).callers[c].pc.Holding? || (At(key).callers[c].pc.Gone? && At(key).callers[c].fired)
      modifies this, leases
      ensures Sound() && old(history) <= history && fresh(leases - old(leases)) && c in At(key).callers
      ensures At(key).callers[c].fired
      ensures At(key).callers[c].pc == (if done then Gone else ReleaseWaiting)
      ensures !done && |rounds| > 0 ==> !CanRun(key, c, TakeGateAgain)
      ensures old(At(key).callers[c].fired) ==> done && accounts == old(accounts) && forall k :: View(k) == old(View(k))
    {
      if At(key).callers[c].pc.Gone? {
        return true;
      }
      NotYetFired(key, c);
      done := ReleaseOnce(key, c, rounds);
    }

    /** The body of the sync.Once. */
    method ReleaseOnce(key: Key, c: CallerId, rounds: seq<Round>) returns (done: bool)
      requires Sound() && c in At(key).callers && At(key).callers[c].pc.Holding? && !At(key).callers[c].fired
      modifies this, leases
      ensures Sound() && old(history) <= history && fresh(leases - old(leases)) && c in At(key).callers
      ensures !done && |rounds| > 0 ==> !CanRun(key, c, TakeGateAgain)
      ensures At(key).callers[c].fired && At(key).callers[c].pc == (if done then Gone else ReleaseWaiting)
    {
      Next(key, c, CallRelease, []);
      var left, i := AwaitGate(key, c, TakeGateAgain, rounds);
      if i < |rounds| {
        var last := GiveUpHold(key, c, rounds, i + 1);
        LeaveLease(key, c, rounds, i + 4);
      }
      return i < |rounds|;
    }

    lemma UpUntilReleased(key: Key, c: CallerId)
      requires Sound() && c in At(key).callers && At(key).callers[c].pc.Released?
      ensures At(key).log != [] && Last(At(key).log) == EnsureEnd(true)
    {
      assert View(key).callers == At(key).callers && View(key).log == At(key).log && Invariant(View(key));
      InsiderIsAlone(View(key), c);
    }

    /** The look at active after giving up a hold: whether this was the last holder. If not, the workspace stays up. */
    method LookForOthers(key: Key, c: CallerId, others: seq<Turn>) returns (last: bool)
      requires Sound() && c in At(key).callers && At(key).callers[c].pc.Released?
      modifies this, leases
      ensures Sound() && old(history) <= history && fresh(leases - old(leases)) && c in At(key).callers
      ensures At(key).callers[c].pc == if last then Cleaning else Returning
      ensures !last ==> At(key).log != [] && Last(At(key).log) == EnsureEnd(true)
      ensures At(key).callers[c].fired == old(At(key).callers[c].fired)
    {
      Interfere(key, c, others);
      UpUntilReleased(key, c);
      PrivateCanRun(key, c, AfterDecrement);
      last := At(key).heap[At(key).callers[c].lease].active == 0;
      Do(key, c, AfterDecrement);
    }

    /** In the gate: one holder fewer, and the last one deletes the pod before it lets anyone else in. */
    method GiveUpHold(key: Key, c: CallerId, rounds: seq<Round>, i: nat) returns (last: bool)
      requires Sound() && c in At(key).callers && At(key).callers[c].pc.Releasing?
      modifies this, leases
      ensures Sound() && old(history) <= history && fresh(leases - old(leases)) && c in At(key).callers
      ensures At(key).callers[c].pc.Returning? && At(key).callers[c].fired == old(At(key).callers[c].fired)
      ensures At(key).log != [] && Last(At(key).log) == if last then DeleteEnd(RoundAt(rounds, i + 2).ok) else EnsureEnd(true)
    {
      Next(key, c, Decrement, RoundAt(rounds, i).others);
      last := LookForOthers(key, c, RoundAt(rounds, i + 1).others);
      if last {
        DeleteEnds(key, c, RoundAt(rounds, i + 2));
      }
    }
  }
}
