/**
 The GitHub key cache under concurrent calls (internal/auth/github.go) and the logins that are decided by it
 (internal/auth/authenticator.go). Time is a clock that never goes back.
 */
module KeyCache {
  import opened Base

  type User = string
  type Key = string  // a marshalled public key
  type Time = nat

  datatype Entry = Entry(keys: seq<Key>, fetchedAt: Time)

  /** What GitHub would serve for a user at a time. */
  type GitHub = (User, Time) -> seq<Key>

  /**
   delay is the most that can pass between GitHub serving a list and its stamp: a fetch that takes longer fails, as the
   HTTP client's timeout covers reading the list.
   */
  datatype Setting = Setting(ttl: Time, delay: Time, allowed: seq<User>, github: GitHub)

  datatype CheckId = CheckId(number: nat)
  datatype LoginId = LoginId(number: nat)

  /**
   One call of keys, begun at since. Found has read the map under the lock; Served holds a list that GitHub gave it at a
   time; Back has returned at a time, None for an error.
   */
  datatype Check =
    | Found(user: User, since: Time, entry: Option<Entry>)
    | Fetching(user: User, since: Time)
    | Served(user: User, since: Time, keys: seq<Key>, servedAt: Time)
    | Back(user: User, since: Time, at: Time, result: Option<seq<Key>>)

  datatype Verdict = Accepted(user: User) | UnknownKey | AmbiguousKey | FetchFailed(user: User)

  /** A list that keys returned at a time. */
  datatype Got = Got(keys: seq<Key>, at: Time)

  /** One call of Authenticate: the lists it has for the first users of the allow-list, and in the end its verdict. */
  datatype Login = Login(key: Key, begun: Time, got: seq<Got>, verdict: Option<Verdict>, ended: Time)

  datatype State = State(now: Time, entries: map<User, Entry>, checks: map<CheckId, Check>, logins: map<LoginId, Login>)

  const INIT := State(0, map[], map[], map[])

  /** What a call does after its look-up. */
  datatype Act =
    | Decide     // the freshness test, outside the lock
    | Serve      // GitHub produces the list
    | FailFetch  // any error of fetchKeys
    | Store      // the second critical section

  datatype Step =
    | Tick
    // keys
    | LookUp(c: CheckId, user: User)  // the first critical section
    | Go(c: CheckId, a: Act)
    // Authenticate
    | Begin(l: LoginId, key: Key)
    | TakeBack(l: LoginId, c: CheckId)  // its call for the next user has returned
    | Conclude(l: LoginId)

  // ----- The verdict -----

  predicate Matches(lists: seq<seq<Key>>, key: Key, i: nat) {
    i < |lists| && key in lists[i]
  }

  /** Position i of the allow-list is the only one whose list has the key. */
  ghost predicate OnlyMatch(lists: seq<seq<Key>>, key: Key, i: nat) {
    Matches(lists, key, i) && forall j: nat | Matches(lists, key, j) :: j == i
  }

  /** The positions that match, and the users there, in the order of the allow-list. */
  function Positions(lists: seq<seq<Key>>, key: Key): seq<nat> {
    if lists == [] then [] else
      var n := |lists| - 1;
      Positions(lists[..n], key) + if key in lists[n] then [n] else []
  }

  function MatchedUsers(allowed: seq<User>, lists: seq<seq<Key>>, key: Key): seq<User>
    requires |lists| <= |allowed|
  {
    if lists == [] then [] else
      var n := |lists| - 1;
      MatchedUsers(allowed, lists[..n], key) + if key in lists[n] then [allowed[n]] else []
  }

  function VerdictOf(allowed: seq<User>, lists: seq<seq<Key>>, key: Key): Verdict
    requires |lists| <= |allowed|
  {
    var matched := MatchedUsers(allowed, lists, key);
    if |matched| == 0 then UnknownKey else if |matched| == 1 then Accepted(matched[0]) else AmbiguousKey
  }

  ghost predicate Collected(allowed: seq<User>, lists: seq<seq<Key>>, key: Key, matched: seq<User>, at: seq<nat>) {
    && |at| == |matched|
    && (forall i | 0 <= i < |at| :: at[i] < |allowed| && Matches(lists, key, at[i]) && matched[i] == allowed[at[i]])
    && (forall i, j | 0 <= i < j < |at| :: at[i] < at[j])
    && (forall p: nat | Matches(lists, key, p) :: p in at)
  }

  lemma CollectedOneMore(allowed: seq<User>, lists: seq<seq<Key>>, key: Key, matched: seq<User>, at: seq<nat>, r: seq<Key>)
    requires |lists| < |allowed| && Collected(allowed, lists, key, matched, at)
    ensures var n := |lists|;
      if key in r then Collected(allowed, lists + [r], key, matched + [allowed[n]], at + [n])
      else Collected(allowed, lists + [r], key, matched, at)
  {
    var n, next := |lists|, lists + [r];
    forall p: nat ensures Matches(next, key, p) <==> (Matches(lists, key, p) || (p == n && key in r)) { }
    forall i | 0 <= i < |at| ensures at[i] < n {
      assert Matches(lists, key, at[i]);
    }
    if key in r {
      var longer := at + [n];
      assert longer[|at|] == n;
      forall p: nat | Matches(next, key, p) ensures p in longer { }
    }
  }

  lemma {:induction false} PositionsAreCollected(allowed: seq<User>, lists: seq<seq<Key>>, key: Key)
    requires |lists| <= |allowed|
    ensures Collected(allowed, lists, key, MatchedUsers(allowed, lists, key), Positions(lists, key))
  {
    if lists != [] {
      var n := |lists| - 1;
      PositionsAreCollected(allowed, lists[..n], key);
      assert lists == lists[..n] + [lists[n]];
      CollectedOneMore(allowed, lists[..n], key, MatchedUsers(allowed, lists[..n], key), Positions(lists[..n], key), lists[n]);
    }
  }

  /** What a verdict says of the lists that were obtained. */
  ghost predicate VerdictFits(allowed: seq<User>, lists: seq<seq<Key>>, key: Key, verdict: Verdict) {
    match verdict
    case Accepted(user) => |lists| == |allowed| && exists i: nat | i < |allowed| :: OnlyMatch(lists, key, i) && user == allowed[i]
    case UnknownKey => |lists| == |allowed| && forall i: nat :: !Matches(lists, key, i)
    case AmbiguousKey => |lists| == |allowed| && exists i: nat, j: nat :: i < j && Matches(lists, key, i) && Matches(lists, key, j)
    case FetchFailed(user) => |lists| < |allowed| && user == allowed[|lists|]
  }

  /** With all lists obtained, counting the users whose list has the key decides what it should. */
  lemma VerdictIsRight(allowed: seq<User>, lists: seq<seq<Key>>, key: Key)
    requires |lists| == |allowed|
    ensures VerdictFits(allowed, lists, key, VerdictOf(allowed, lists, key))
  {
    var at := Positions(lists, key);
    PositionsAreCollected(allowed, lists, key);
    if |at| > 0 {
      assert Matches(lists, key, at[0]);
    }
    if |at| > 1 {
      assert at[0] < at[1] && Matches(lists, key, at[1]);
    }
    if |at| == 1 {
      assert OnlyMatch(lists, key, at[0]);
    }
  }

  // ----- Steps -----

  function Find(entries: map<User, Entry>, u: User): Option<Entry> {
    if u in entries then Some(entries[u]) else None
  }

  predicate Fresh(e: Option<Entry>, now: Time, ttl: Time) {
    e.Some? && now - e.value.fetchedAt < ttl
  }

  /** Since when the login can be waiting for its next list. */
  function Waits(v: Login): Time {
    if v.got == [] then v.begun else Last(v.got).at
  }

  function Lists(got: seq<Got>): seq<seq<Key>> {
    seq(|got|, i requires 0 <= i < |got| => got[i].keys)
  }

  predicate CheckReady(k: Check, now: Time, delay: Time, a: Act) {
    match a
    case Decide => k.Found?
    case Serve => k.Fetching?
    case FailFetch => k.Fetching? || k.Served?
    case Store => k.Served? && now - k.servedAt <= delay
  }

  function CheckAfter(k: Check, now: Time, w: Setting, a: Act): Check
    requires CheckReady(k, now, w.delay, a)
  {
    match a
    case Decide => if Fresh(k.entry, now, w.ttl) then Back(k.user, k.since, now, Some(k.entry.value.keys)) else Fetching(k.user, k.since)
    case Serve => Served(k.user, k.since, w.github(k.user, now), now)
    case FailFetch => Back(k.user, k.since, now, None)
    case Store => Back(k.user, k.since, now, Some(k.keys))
  }

  /** The login's call was one for its next user, begun since it waits. */
  predicate Returned(v: Login, checks: map<CheckId, Check>, allowed: seq<User>, c: CheckId) {
    && v.verdict.None? && |v.got| < |allowed| && c in checks && checks[c].Back?
    && checks[c].user == allowed[|v.got|] && checks[c].since >= Waits(v)
  }

  function LoginAfter(v: Login, checks: map<CheckId, Check>, now: Time, allowed: seq<User>, c: CheckId): Login
    requires Returned(v, checks, allowed, c)
  {
    if checks[c].result.None? then v.(verdict := Some(FetchFailed(allowed[|v.got|])), ended := now)
    else v.(got := v.got + [Got(checks[c].result.value, checks[c].at)])
  }

  predicate Enabled(s: State, w: Setting, x: Step) {
    match x
    case Tick => true
    case LookUp(c, _) => c !in s.checks
    case Go(c, a) => c in s.checks && CheckReady(s.checks[c], s.now, w.delay, a)
    case Begin(l, _) => l !in s.logins
    case TakeBack(l, c) => l in s.logins && Returned(s.logins[l], s.checks, w.allowed, c)
    case Conclude(l) => l in s.logins && s.logins[l].verdict.None? && |s.logins[l].got| == |w.allowed|
  }

  function Apply(s: State, w: Setting, x: Step): State
    requires Enabled(s, w, x)
  {
    match x
    case Tick => s.(now := s.now + 1)
    case LookUp(c, u) => s.(checks := s.checks[c := Found(u, s.now, Find(s.entries, u))])
    case Go(c, a) =>
      var k := s.checks[c];
      s.(checks := s.checks[c := CheckAfter(k, s.now, w, a)],
         entries := if a.Store? then s.entries[k.user := Entry(k.keys, s.now)] else s.entries)
    case Begin(l, key) => s.(logins := s.logins[l := Login(key, s.now, [], None, s.now)])
    case TakeBack(l, c) => s.(logins := s.logins[l := LoginAfter(s.logins[l], s.checks, s.now, w.allowed, c)])
    case Conclude(l) =>
      var v := s.logins[l];
      s.(logins := s.logins[l := v.(verdict := Some(VerdictOf(w.allowed, Lists(v.got), v.key)), ended := s.now)])
  }

  /** Any schedule of calls, logins, clock ticks and GitHub; a step that cannot happen when its turn comes is skipped. */
  function Run(xs: seq<Step>, w: Setting): State {
    if xs == [] then INIT else
      var s := Run(xs[..|xs| - 1], w);
      if Enabled(s, w, Last(xs)) then Apply(s, w, Last(xs)) else s
  }

  lemma RunOneMore(xs: seq<Step>, w: Setting, s: State, x: Step)
    requires s == Run(xs, w) && Enabled(s, w, x)
    ensures Run(xs + [x], w) == Apply(s, w, x)
  {
    assert (xs + [x])[..|xs|] == xs;
  }

  lemma SkippedOneMore(xs: seq<Step>, w: Setting, x: Step)
    requires !Enabled(Run(xs, w), w, x)
    ensures Run(xs + [x], w) == Run(xs, w)
  {
    assert (xs + [x])[..|xs|] == xs;
  }

  // ----- Staleness -----

  predicate ServedAt(u: User, keys: seq<Key>, t: Time, github: GitHub) {
    keys == github(u, t)
  }

  /** What an entry holds GitHub served, at most delay before the stamp. */
  ghost predicate EntryFits(u: User, e: Entry, now: Time, w: Setting) {
    e.fetchedAt <= now && exists t: Time :: ServedAt(u, e.keys, t, w.github) && t <= e.fetchedAt <= t + w.delay
  }

  /** A list returned at a time by a call begun at since: fetched by the call itself, or still fresh from an earlier one. */
  predicate Recent(t: Time, since: Time, at: Time, w: Setting) {
    t <= at && ((t >= since && at <= t + w.delay) || (w.ttl > 0 && at < t + w.ttl + w.delay))
  }

  ghost predicate ListFits(u: User, keys: seq<Key>, since: Time, at: Time, w: Setting) {
    exists t: Time :: ServedAt(u, keys, t, w.github) && Recent(t, since, at, w)
  }

  ghost predicate CheckFits(k: Check, now: Time, w: Setting) {
    match k
    case Found(u, since, entry) => since <= now && (entry.Some? ==> EntryFits(u, entry.value, now, w))
    case Fetching(_, since) => since <= now
    case Served(u, since, keys, t) => since <= t <= now && ServedAt(u, keys, t, w.github)
    case Back(u, since, at, result) => since <= at <= now && (result.Some? ==> ListFits(u, result.value, since, at, w))
  }

  /** Each list was returned, one after the other, by a call begun after the login. */
  ghost predicate LoginFits(v: Login, now: Time, w: Setting) {
    && v.begun <= Waits(v) <= now && v.ended <= now
    && |v.got| <= |w.allowed|
    && (forall i | 0 <= i < |v.got| ::
          v.begun <= v.got[i].at <= now && ListFits(w.allowed[i], v.got[i].keys, v.begun, v.got[i].at, w))
    && (forall i, j | 0 <= i < j < |v.got| :: v.got[i].at <= v.got[j].at)
    && match v.verdict
       case None => true
       case Some(FetchFailed(u)) => |v.got| < |w.allowed| && u == w.allowed[|v.got|]
       case Some(verdict) => |v.got| == |w.allowed| && verdict == VerdictOf(w.allowed, Lists(v.got), v.key)
  }

  ghost predicate Invariant(s: State, w: Setting) {
    && (forall u <- s.entries :: EntryFits(u, s.entries[u], s.now, w))
    && (forall c <- s.checks :: CheckFits(s.checks[c], s.now, w))
    && (forall l <- s.logins :: LoginFits(s.logins[l], s.now, w))
  }

  lemma TickKeepsInvariant(s: State, w: Setting)
    requires Invariant(s, w)
    ensures Invariant(s.(now := s.now + 1), w)
  {
    forall u <- s.entries ensures EntryFits(u, s.entries[u], s.now + 1, w) {
      assert EntryFits(u, s.entries[u], s.now, w);
    }
    forall c <- s.checks ensures CheckFits(s.checks[c], s.now + 1, w) {
      assert CheckFits(s.checks[c], s.now, w);
    }
    forall l <- s.logins ensures LoginFits(s.logins[l], s.now + 1, w) {
      assert LoginFits(s.logins[l], s.now, w);
    }
  }

  lemma CheckStepFits(k: Check, now: Time, w: Setting, a: Act)
    requires CheckFits(k, now, w) && CheckReady(k, now, w.delay, a)
    ensures CheckFits(CheckAfter(k, now, w, a), now, w)
    ensures a.Store? ==> EntryFits(k.user, Entry(k.keys, now), now, w)
  {
    if a.Decide? && Fresh(k.entry, now, w.ttl) {
      var e := k.entry.value;
      var t: Time :| ServedAt(k.user, e.keys, t, w.github) && t <= e.fetchedAt <= t + w.delay;
      assert Recent(t, k.since, now, w);
    } else if a.Store? {
      assert ServedAt(k.user, k.keys, k.servedAt, w.github) && Recent(k.servedAt, k.since, now, w);
    }
  }

  /** A list of a call that began after the login is as recent for the login. */
  lemma ListFitsEarlier(u: User, keys: seq<Key>, since: Time, at: Time, begun: Time, w: Setting)
    requires ListFits(u, keys, since, at, w) && begun <= since
    ensures ListFits(u, keys, begun, at, w)
  {
    var t: Time :| ServedAt(u, keys, t, w.github) && Recent(t, since, at, w);
    assert Recent(t, begun, at, w);
  }

  lemma TakeBackFits(v: Login, checks: map<CheckId, Check>, now: Time, w: Setting, c: CheckId)
    requires LoginFits(v, now, w) && Returned(v, checks, w.allowed, c) && CheckFits(checks[c], now, w)
    ensures LoginFits(LoginAfter(v, checks, now, w.allowed, c), now, w)
  {
    var k := checks[c];
    if k.result.Some? {
      ListFitsEarlier(k.user, k.result.value, k.since, k.at, v.begun, w);
    }
  }

  lemma GoKeepsInvariant(s: State, w: Setting, c: CheckId, a: Act)
    requires Invariant(s, w) && Enabled(s, w, Go(c, a))
    ensures Invariant(Apply(s, w, Go(c, a)), w)
  {
    assert CheckFits(s.checks[c], s.now, w);
    CheckStepFits(s.checks[c], s.now, w, a);
  }

  lemma ChangedLoginKeepsInvariant(s: State, w: Setting, l: LoginId, v: Login)
    requires Invariant(s, w) && LoginFits(v, s.now, w)
    ensures Invariant(s.(logins := s.logins[l := v]), w)
  {
  }

  lemma LoginStepFits(s: State, w: Setting, x: Step)
    requires Invariant(s, w) && Enabled(s, w, x) && (x.Begin? || x.TakeBack? || x.Conclude?)
    ensures x.l in Apply(s, w, x).logins && LoginFits(Apply(s, w, x).logins[x.l], s.now, w)
    ensures Apply(s, w, x) == s.(logins := s.logins[x.l := Apply(s, w, x).logins[x.l]])
  {
    if !x.Begin? {
      assert LoginFits(s.logins[x.l], s.now, w);
    }
    if x.TakeBack? {
      assert CheckFits(s.checks[x.c], s.now, w);
      TakeBackFits(s.logins[x.l], s.checks, s.now, w, x.c);
    }
  }

  lemma StepKeepsInvariant(s: State, w: Setting, x: Step)
    requires Invariant(s, w) && Enabled(s, w, x)
    ensures Invariant(Apply(s, w, x), w)
  {
    match x {
      case Tick => TickKeepsInvariant(s, w);
      case LookUp(c, u) =>
      case Go(c, a) => GoKeepsInvariant(s, w, c, a);
      case Begin(l, key) =>
        LoginStepFits(s, w, x);
        ChangedLoginKeepsInvariant(s, w, l, Apply(s, w, x).logins[l]);
      case TakeBack(l, c) =>
        LoginStepFits(s, w, x);
        ChangedLoginKeepsInvariant(s, w, l, Apply(s, w, x).logins[l]);
      case Conclude(l) =>
        LoginStepFits(s, w, x);
        ChangedLoginKeepsInvariant(s, w, l, Apply(s, w, x).logins[l]);
    }
  }

  lemma {:induction false} RunKeepsInvariant(xs: seq<Step>, w: Setting)
    ensures Invariant(Run(xs, w), w)
  {
    if xs != [] {
      RunKeepsInvariant(xs[..|xs| - 1], w);
      var s := Run(xs[..|xs| - 1], w);
      if Enabled(s, w, Last(xs)) {
        StepKeepsInvariant(s, w, Last(xs));
      }
    }
  }

  /** A user's stamp never goes back, and only a fetch that succeeded changes an entry. */
  lemma StampsNeverGoBack(xs: seq<Step>, w: Setting, x: Step)
    requires Enabled(Run(xs, w), w, x)
    ensures var s, t := Run(xs, w), Apply(Run(xs, w), w, x);
      && (forall u <- s.entries :: u in t.entries && s.entries[u].fetchedAt <= t.entries[u].fetchedAt)
      && (t.entries == s.entries || (x.Go? && x.a.Store?))
      && (x.Go? && x.a.FailFetch? ==> t.checks[x.c].result == None)
  {
    RunKeepsInvariant(xs, w);
  }

  // ----- How soon a removed key is refused -----

  /** The key is in none of the lists that GitHub serves after last. */
  ghost predicate Removed(github: GitHub, u: User, key: Key, last: Time) {
    forall t: Time | t > last :: key !in github(u, t)
  }

  /** A call has returned a list with the key. */
  predicate Returns(s: State, c: CheckId, key: Key) {
    c in s.checks && s.checks[c].Back? && s.checks[c].result.Some? && key in s.checks[c].result.value
  }

  predicate Accepts(s: State, l: LoginId, u: User) {
    l in s.logins && s.logins[l].verdict == Some(Accepted(u))
  }

  /** Not more than rest has passed from the return of a list with the key to the verdict. */
  predicate Prompt(v: Login, rest: Time) {
    forall i | 0 <= i < |v.got| && v.key in v.got[i].keys :: v.ended - v.got[i].at <= rest
  }

  /** How long after a key was last served a call can return it: a fetch, and all but the last moment of the TTL after it. */
  function CallLag(ttl: Time, delay: Time): Time {
    delay + if ttl == 0 then 1 else ttl
  }

  /** How long after that a call can begin that returns it. */
  function StartLag(ttl: Time, delay: Time): Time {
    if ttl == 0 then 1 else ttl + delay
  }

  lemma ReturnIsRecent(xs: seq<Step>, w: Setting, c: CheckId, key: Key, last: Time)
    requires Returns(Run(xs, w), c, key) && Removed(w.github, Run(xs, w).checks[c].user, key, last)
    ensures var k := Run(xs, w).checks[c]; k.at < last + CallLag(w.ttl, w.delay) && k.since < last + StartLag(w.ttl, w.delay)
  {
    RunKeepsInvariant(xs, w);
    var k := Run(xs, w).checks[c];
    assert CheckFits(k, Run(xs, w).now, w);
    ListIsRecent(k.user, k.result.value, k.since, k.at, w, key, last);
  }

  lemma ListIsRecent(u: User, keys: seq<Key>, since: Time, at: Time, w: Setting, key: Key, last: Time)
    requires ListFits(u, keys, since, at, w) && since <= at && key in keys && Removed(w.github, u, key, last)
    ensures at < last + CallLag(w.ttl, w.delay) && since < last + StartLag(w.ttl, w.delay)
  {
    var t: Time :| ServedAt(u, keys, t, w.github) && Recent(t, since, at, w);
    assert t > last ==> key !in w.github(u, t);
  }

  /** Whoever a login accepts, it began soon enough after GitHub last served the key for that user, and got the list soon enough. */
  lemma AcceptedIsRecent(xs: seq<Step>, w: Setting, l: LoginId, u: User, last: Time) returns (i: nat)
    requires Accepts(Run(xs, w), l, u) && Removed(w.github, u, Run(xs, w).logins[l].key, last)
    ensures var v := Run(xs, w).logins[l];
      && i < |v.got| == |w.allowed| && w.allowed[i] == u && OnlyMatch(Lists(v.got), v.key, i)
      && v.begun < last + StartLag(w.ttl, w.delay) && v.got[i].at < last + CallLag(w.ttl, w.delay)
  {
    RunKeepsInvariant(xs, w);
    var v := Run(xs, w).logins[l];
    assert LoginFits(v, Run(xs, w).now, w);
    VerdictIsRight(w.allowed, Lists(v.got), v.key);
    i :| i < |w.allowed| && OnlyMatch(Lists(v.got), v.key, i) && u == w.allowed[i];
    assert Matches(Lists(v.got), v.key, i);
    ListIsRecent(u, v.got[i].keys, v.begun, v.got[i].at, w, v.key, last);
  }

  /** No call returns a key `bound` after GitHub last served it, or later. */
  ghost predicate CallsRefuse(ttl: Time, delay: Time, bound: Time) {
    forall w: Setting, xs: seq<Step>, c: CheckId, key: Key, last: Time ::
      w.ttl == ttl && w.delay == delay && Returns(Run(xs, w), c, key) && Removed(w.github, Run(xs, w).checks[c].user, key, last)
      ==> Run(xs, w).checks[c].at < last + bound
  }

  /** No login that begins `bound` after GitHub last served the key for a user, or later, is accepted as that user. */
  ghost predicate NewLoginsRefuse(ttl: Time, delay: Time, bound: Time) {
    forall w: Setting, xs: seq<Step>, l: LoginId, u: User, last: Time ::
      w.ttl == ttl && w.delay == delay && Accepts(Run(xs, w), l, u) && Removed(w.github, u, Run(xs, w).logins[l].key, last)
      ==> Run(xs, w).logins[l].begun < last + bound
  }

  /** No login is accepted so late, whenever it began, if its other fetches take no more than rest. */
  ghost predicate LoginsRefuse(ttl: Time, delay: Time, rest: Time, bound: Time) {
    forall w: Setting, xs: seq<Step>, l: LoginId, u: User, last: Time ::
      w.ttl == ttl && w.delay == delay && Accepts(Run(xs, w), l, u) && Prompt(Run(xs, w).logins[l], rest)
      && Removed(w.github, u, Run(xs, w).logins[l].key, last)
      ==> Run(xs, w).logins[l].ended < last + bound
  }

  // ----- The slowest login -----

  lemma StepTo(xs: seq<Step>, w: Setting, s: State, x: Step, t: State) returns (ys: seq<Step>)
    requires s == Run(xs, w) && Enabled(s, w, x) && t == Apply(s, w, x)
    ensures t == Run(ys, w)
  {
    RunOneMore(xs, w, s, x);
    ys := xs + [x];
  }

  lemma {:induction false} Ticks(xs: seq<Step>, w: Setting, n: nat) returns (ys: seq<Step>)
    ensures Run(ys, w) == Run(xs, w).(now := Run(xs, w).now + n)
  {
    ys := xs;
    if n > 0 {
      ys := Ticks(xs, w, n - 1);
      RunOneMore(ys, w, Run(ys, w), Tick);
      ys := ys + [Tick];
    }
  }

  lemma FetchStarts(xs: seq<Step>, w: Setting, s: State, c: CheckId, u: User) returns (ys: seq<Step>)
    requires s == Run(xs, w) && c !in s.checks && u !in s.entries
    ensures Run(ys, w) == s.(checks := s.checks[c := Fetching(u, s.now)])
  {
    var found := s.(checks := s.checks[c := Found(u, s.now, None)]);
    ys := StepTo(xs, w, s, LookUp(c, u), found);
    ys := StepTo(ys, w, found, Go(c, Decide), s.(checks := s.checks[c := Fetching(u, s.now)]));
  }

  /** A call that fetches: GitHub serves after wait, and the list is stamped after read. */
  lemma Fetches(xs: seq<Step>, w: Setting, s: State, c: CheckId, u: User, wait: Time, read: Time) returns (ys: seq<Step>, t: State)
    requires s == Run(xs, w) && c !in s.checks && u !in s.entries && read <= w.delay
    ensures t == Run(ys, w)
    ensures var keys, at := w.github(u, s.now + wait), s.now + wait + read;
      t == s.(now := at, entries := s.entries[u := Entry(keys, at)], checks := s.checks[c := Back(u, s.now, at, Some(keys))])
  {
    var keys, mid := w.github(u, s.now + wait), s.now + wait;
    ys := FetchStarts(xs, w, s, c, u);
    ys := Ticks(ys, w, wait);
    var served := s.(now := mid, checks := s.checks[c := Served(u, s.now, keys, mid)]);
    ys := StepTo(ys, w, s.(now := mid, checks := s.checks[c := Fetching(u, s.now)]), Go(c, Serve), served);
    ys := Ticks(ys, w, read);
    t := s.(now := mid + read, entries := s.entries[u := Entry(keys, mid + read)],
            checks := s.checks[c := Back(u, s.now, mid + read, Some(keys))]);
    ys := StepTo(ys, w, served.(now := mid + read), Go(c, Store), t);
  }

  /** A call that finds a fresh entry. */
  lemma Hits(xs: seq<Step>, w: Setting, s: State, c: CheckId, u: User) returns (ys: seq<Step>, t: State)
    requires s == Run(xs, w) && c !in s.checks && u in s.entries && s.now - s.entries[u].fetchedAt < w.ttl
    ensures t == Run(ys, w) && t == s.(checks := s.checks[c := Back(u, s.now, s.now, Some(s.entries[u].keys))])
  {
    var found := s.(checks := s.checks[c := Found(u, s.now, Some(s.entries[u]))]);
    ys := StepTo(xs, w, s, LookUp(c, u), found);
    t := s.(checks := s.checks[c := Back(u, s.now, s.now, Some(s.entries[u].keys))]);
    ys := StepTo(ys, w, found, Go(c, Decide), t);
  }

  const L := LoginId(0)

  /** The key is in u's list at time 0 only; v has no keys. */
  function Slow(ttl: Time, delay: Time): Setting {
    Setting(ttl, delay, ["u", "v"], (u, t) => if u == "u" && t == 0 then ["k"] else [])
  }

  /** A login that has u's list, and has v's fetched after rest. */
  lemma LoginGoesOn(xs: seq<Step>, w: Setting, s: State, begun: Time, rest: Time) returns (ys: seq<Step>)
    requires s == Run(xs, w) && w == Slow(w.ttl, w.delay) && L in s.logins
    requires s.logins[L] == Login("k", begun, [Got(["k"], s.now)], None, begun)
    requires "v" !in s.entries && CheckId(2) !in s.checks
    ensures Accepts(Run(ys, w), L, "u") && Run(ys, w).logins[L] ==
      Login("k", begun, [Got(["k"], s.now), Got([], s.now + rest)], Some(Accepted("u")), s.now + rest)
    ensures forall c <- s.checks :: c in Run(ys, w).checks && Run(ys, w).checks[c] == s.checks[c]
  {
    var t;
    ys, t := Fetches(xs, w, s, CheckId(2), "v", rest, 0);
    var v := Login("k", begun, [Got(["k"], s.now), Got([], s.now + rest)], None, begun);
    assert s.logins[L].got + [Got([], s.now + rest)] == v.got;
    ys := StepTo(ys, w, t, TakeBack(L, CheckId(2)), t.(logins := t.logins[L := v]));
    VerdictOfTwo();
    assert Lists(v.got) == [["k"], []];
    var u := t.(logins := t.logins[L := v.(verdict := Some(Accepted("u")), ended := s.now + rest)]);
    ys := StepTo(ys, w, t.(logins := t.logins[L := v]), Conclude(L), u);
  }

  lemma VerdictOfTwo()
    ensures VerdictOf(["u", "v"], [["k"], []], "k") == Accepted("u")
  {
    assert [["k"], []][..1] == [["k"]] && [["k"]][..0] == [];
    assert MatchedUsers(["u", "v"], [["k"]], "k") == ["u"];
  }

  /**
   The slowest fetch, then the latest hit, by a login that then waits for another user's list: begun, given the list and
   ended as late as can be after the key was last served, at time 0.
   */
  lemma SlowestLogin(ttl: Time, delay: Time, rest: Time) returns (xs: seq<Step>, c: CheckId)
    ensures var w := Slow(ttl, delay);
      var s := Run(xs, w);
      && Removed(w.github, "u", "k", 0)
      && Returns(s, c, "k") && s.checks[c].user == "u" && s.checks[c].at == CallLag(ttl, delay) - 1
      && Accepts(s, L, "u") && s.logins[L].key == "k" && Prompt(s.logins[L], rest)
      && s.logins[L].begun == StartLag(ttl, delay) - 1 && s.logins[L].ended == CallLag(ttl, delay) - 1 + rest
  {
    var w := Slow(ttl, delay);
    var s := INIT;
    var a := CheckId(0);
    if ttl == 0 {
      var t := s.(logins := map[L := Login("k", 0, [], None, 0)]);
      xs := StepTo([], w, s, Begin(L, "k"), t);
      xs, s := Fetches(xs, w, t, a, "u", 0, delay);
      c := a;
    } else {
      xs, s := Fetches([], w, s, a, "u", 0, delay);
      xs := Ticks(xs, w, ttl - 1);
      s := s.(now := delay + ttl - 1);
      var t := s.(logins := map[L := Login("k", s.now, [], None, s.now)]);
      xs := StepTo(xs, w, s, Begin(L, "k"), t);
      c := CheckId(1);
      xs, s := Hits(xs, w, t, c, "u");
    }
    var begun := s.logins[L].begun;
    var u := s.(logins := map[L := Login("k", begun, [Got(["k"], s.now)], None, begun)]);
    assert s.checks[c] == Back("u", begun, s.now, Some(["k"]));
    assert [] + [Got(["k"], s.now)] == [Got(["k"], s.now)];
    assert s.logins[L := u.logins[L]] == u.logins;
    xs := StepTo(xs, w, s, TakeBack(L, c), u);
    xs := LoginGoesOn(xs, w, u, begun, rest);
  }

  lemma BoundsSuffice(ttl: Time, delay: Time, rest: Time, bound: Time)
    ensures bound >= CallLag(ttl, delay) ==> CallsRefuse(ttl, delay, bound)
    ensures bound >= StartLag(ttl, delay) ==> NewLoginsRefuse(ttl, delay, bound)
    ensures bound >= CallLag(ttl, delay) + rest ==> LoginsRefuse(ttl, delay, rest, bound)
  {
    forall w: Setting, xs: seq<Step>, c: CheckId, key: Key, last: Time
      | w.ttl == ttl && w.delay == delay && Returns(Run(xs, w), c, key) && Removed(w.github, Run(xs, w).checks[c].user, key, last)
      ensures Run(xs, w).checks[c].at < last + CallLag(ttl, delay)
    {
      ReturnIsRecent(xs, w, c, key, last);
    }
    forall w: Setting, xs: seq<Step>, l: LoginId, u: User, last: Time
      | w.ttl == ttl && w.delay == delay && Accepts(Run(xs, w), l, u) && Removed(w.github, u, Run(xs, w).logins[l].key, last)
      ensures var v := Run(xs, w).logins[l];
        && v.begun < last + StartLag(ttl, delay)
        && (Prompt(v, rest) ==> v.ended < last + CallLag(ttl, delay) + rest)
    {
      var i := AcceptedIsRecent(xs, w, l, u, last);
      assert Matches(Lists(Run(xs, w).logins[l].got), Run(xs, w).logins[l].key, i);
    }
  }

  lemma BoundsAreNeeded(ttl: Time, delay: Time, rest: Time, bound: Time)
    ensures CallsRefuse(ttl, delay, bound) ==> bound >= CallLag(ttl, delay)
    ensures NewLoginsRefuse(ttl, delay, bound) ==> bound >= StartLag(ttl, delay)
    ensures LoginsRefuse(ttl, delay, rest, bound) ==> bound >= CallLag(ttl, delay) + rest
  {
    var xs, c := SlowestLogin(ttl, delay, rest);
    var w := Slow(ttl, delay);
    assert CallsRefuse(ttl, delay, bound) ==> Run(xs, w).checks[c].at < 0 + bound;
    assert NewLoginsRefuse(ttl, delay, bound) ==> Run(xs, w).logins[L].begun < 0 + bound;
    assert LoginsRefuse(ttl, delay, rest, bound) ==> Run(xs, w).logins[L].ended < 0 + bound;
  }

  /**
   The exact promises about a removed key, for a call of keys, for a login begun after the removal, and for a login that
   may have been under way and whose other fetches may take rest.
   */
  lemma RefusalBoundsAreExact(ttl: Time, delay: Time, rest: Time, bound: Time)
    ensures CallsRefuse(ttl, delay, bound) <==> bound >= CallLag(ttl, delay)
    ensures NewLoginsRefuse(ttl, delay, bound) <==> bound >= StartLag(ttl, delay)
    ensures LoginsRefuse(ttl, delay, rest, bound) <==> bound >= CallLag(ttl, delay) + rest
  {
    BoundsSuffice(ttl, delay, rest, bound);
    BoundsAreNeeded(ttl, delay, rest, bound);
  }

  /**
   The documented bound, one TTL: it holds for calls and for new logins exactly when lists are stamped the moment they
   are served, and for logins under way exactly when, besides, their other fetches take no time.
   */
  lemma OneTtlIsEnoughExactlyWithoutDelay(ttl: Time, delay: Time, rest: Time)
    ensures CallsRefuse(ttl, delay, ttl) <==> ttl > 0 && delay == 0
    ensures NewLoginsRefuse(ttl, delay, ttl) <==> ttl > 0 && delay == 0
    ensures LoginsRefuse(ttl, delay, rest, ttl) <==> ttl > 0 && delay == 0 && rest == 0
  {
    RefusalBoundsAreExact(ttl, delay, rest, ttl);
  }

  // ----- The cache and the authenticator as objects -----

  /**
   What happens during a call of keys: others' steps before its look-up, before its freshness test, before GitHub serves
   it and before the stamp, and whether the fetch fails before or after GitHub serves it.
   */
  datatype Plan = Plan(before: seq<Step>, deciding: seq<Step>, serving: seq<Step>, served: bool, storing: seq<Step>, stored: bool)

  /** Whether the step is one of login l or of the calls ids. */
  predicate Concerns(x: Step, l: LoginId, ids: seq<CheckId>) {
    match x
    case Tick => false
    case LookUp(c, _) => c in ids
    case Go(c, _) => c in ids
    case Begin(k, _) => k == l
    case TakeBack(k, _) => k == l
    case Conclude(k) => k == l
  }

  /** The steps that are somebody else's. */
  function Others(xs: seq<Step>, l: LoginId, ids: seq<CheckId>): seq<Step> {
    if xs == [] then [] else
      Others(xs[..|xs| - 1], l, ids) + if Concerns(Last(xs), l, ids) then [] else [Last(xs)]
  }

  /** No tick, no other user's call and no other login is lost. */
  lemma {:induction false} OthersAreKept(xs: seq<Step>, l: LoginId, ids: seq<CheckId>, x: Step)
    ensures multiset(Others(xs, l, ids))[x] == if Concerns(x, l, ids) then 0 else multiset(xs)[x]
    ensures Passes(xs) == multiset(xs)[Tick]
  {
    if xs != [] {
      assert xs == xs[..|xs| - 1] + [Last(xs)];
      OthersAreKept(xs[..|xs| - 1], l, ids, x);
    }
  }

  /** The time that passes. */
  function Passes(xs: seq<Step>): Time {
    if xs == [] then 0 else Passes(xs[..|xs| - 1]) + if Last(xs).Tick? then 1 else 0
  }

  /** A fetch in which GitHub serves the list and nothing fails, in time. */
  predicate Succeeds(plan: Plan, delay: Time) {
    plan.served && plan.stored && Passes(plan.storing) <= delay
  }

  /** A fetch begun at a time gives the list that GitHub serves after what happens first, exactly if it succeeds. */
  predicate FetchFits(w: Setting, u: User, plan: Plan, begun: Time, r: Option<seq<Key>>, now: Time) {
    var served := begun + Passes(plan.serving);
    && r == (if Succeeds(plan, w.delay) then Some(w.github(u, served)) else None)
    && now == if plan.served then served + Passes(plan.storing) else served
  }

  /** A call that found that entry at a time returns it if it is still fresh at the test, and otherwise fetches. */
  predicate CallFits(w: Setting, u: User, entry: Option<Entry>, plan: Plan, found: Time, r: Option<seq<Key>>, now: Time) {
    var tested := found + Passes(plan.deciding);
    if Fresh(entry, tested, w.ttl) then r == Some(entry.value.keys) && now == tested
    else FetchFits(w, u, plan, tested, r, now)
  }

  class Cache {
    const setting: Setting
    var entries: map<User, Entry>
    // Not the cache's own: the clock, and where every call and every login is.
    var now: Time
    var checks: map<CheckId, Check>
    var logins: map<LoginId, Login>
    ghost var history: seq<Step>  // every step offered; Run skips those that could not be taken

    constructor (setting: Setting)
      ensures this.setting == setting && Sound() && View() == INIT
    {
      this.setting := setting;
      entries, now, checks, logins, history := map[], 0, map[], map[], [];
    }

    function View(): State
      reads `entries, `now, `checks, `logins
    {
      State(now, entries, checks, logins)
    }

    ghost predicate Sound()
      reads this
    {
      View() == Run(history, setting)
    }

    /** Login l, and the calls ids but c, are where they were; time has not gone back. */
    twostate predicate Kept(l: LoginId, ids: seq<CheckId>, c: Option<CheckId>)
      reads this
    {
      && old(now) <= now && old(history) <= history
      && (l in logins <==> l in old(logins)) && (l in logins ==> logins[l] == old(logins[l]))
      && forall d <- ids | c != Some(d) :: (d in checks <==> d in old(checks)) && (d in checks ==> checks[d] == old(checks[d]))
    }

    /** A step has been taken. */
    ghost method Note(was: State, x: Step)
      requires was == Run(history, setting) && Enabled(was, setting, x) && View() == Apply(was, setting, x)
      modifies `history
      ensures Sound() && history == old(history) + [x]
    {
      RunOneMore(history, setting, was, x);
      history := history + [x];
    }

    /** Others' steps, each if it can be taken. */
    method Elapse(others: seq<Step>, l: LoginId, ids: seq<CheckId>)
      requires Sound()
      modifies this
      ensures Sound() && Kept(l, ids, None)
      ensures history == old(history) + Others(others, l, ids) && now == old(now) + Passes(others)
    {
      for i := 0 to |others|
        invariant Sound() && Kept(l, ids, None)
        invariant history == old(history) + Others(others[..i], l, ids) && now == old(now) + Passes(others[..i])
      {
        assert others[..i + 1][..i] == others[..i];
        if !Concerns(others[i], l, ids) {
          Offer(others[i], l, ids);
        }
      }
      assert others[..|others|] == others;
    }

    /** Somebody else's turn. */
    method Offer(x: Step, l: LoginId, ids: seq<CheckId>)
      requires Sound() && !Concerns(x, l, ids)
      modifies this
      ensures Sound() && Kept(l, ids, None)
      ensures history == old(history) + [x] && now == old(now) + if x.Tick? then 1 else 0
    {
      ghost var was := View();
      if Enabled(View(), setting, x) {
        var s := Apply(View(), setting, x);
        entries, now, checks, logins := s.entries, s.now, s.checks, s.logins;
        Note(was, x);
      } else {
        SkippedOneMore(history, setting, x);
        history := history + [x];
      }
    }

    /** The first critical section. */
    method LookUpEntry(u: User, c: CheckId) returns (entry: Option<Entry>)
      requires Sound() && c !in checks
      modifies `checks, `history
      ensures Sound() && history == old(history) + [LookUp(c, u)]
      ensures checks == old(checks)[c := Found(u, now, entry)] && entry == Find(entries, u)
    {
      entry := if u in entries then Some(entries[u]) else None;
      ghost var was := View();
      checks := checks[c := Found(u, now, entry)];
      Note(was, LookUp(c, u));
    }

    /** The call ends: with an error, with its entry, or with a list that it stamps and stores. */
    method Finish(c: CheckId, a: Act, r: Option<seq<Key>>)
      requires Sound() && c in checks && !a.Serve? && CheckReady(checks[c], now, setting.delay, a)
      requires a.Decide? ==> Fresh(checks[c].entry, now, setting.ttl)
      requires r == match a case Decide => Some(checks[c].entry.value.keys) case Store => Some(checks[c].keys) case _ => None
      modifies `entries, `checks, `history
      ensures Sound() && history == old(history) + [Go(c, a)]
      ensures checks == old(checks)[c := Back(old(checks)[c].user, old(checks)[c].since, now, r)]
      ensures a.Store? ==> old(checks)[c].user in entries && entries[old(checks)[c].user] == Entry(r.value, now)
      ensures !a.Store? ==> entries == old(entries)
    {
      ghost var was := View();
      var k := checks[c];
      if a.Store? {
        entries := entries[k.user := Entry(k.keys, now)];
      }
      checks := checks[c := Back(k.user, k.since, now, r)];
      Note(was, Go(c, a));
    }

    lemma ReturnFits(c: CheckId, since: Time)
      requires Sound() && c in checks && checks[c].Back? && checks[c].result.Some? && since <= checks[c].since
      ensures ListFits(checks[c].user, checks[c].result.value, since, checks[c].at, setting)
    {
      var k := checks[c];
      RunKeepsInvariant(history, setting);
      assert CheckFits(View().checks[c], now, setting);
      ListFitsEarlier(k.user, k.result.value, k.since, k.at, since, setting);
    }

    /** keys: a list is returned fresh from the cache or fetched, never once it is stale; the lock is not held meanwhile. */
    method Keys(u: User, c: CheckId, plan: Plan, l: LoginId, ids: seq<CheckId>) returns (r: Option<seq<Key>>)
      requires Sound() && c in ids && c !in checks
      modifies this
      ensures Sound() && Kept(l, ids, Some(c))
      ensures c in checks && checks[c].Back? && checks[c].user == u && checks[c].result == r
      ensures old(now) <= checks[c].since <= checks[c].at == now
      ensures r.Some? ==> ListFits(u, r.value, old(now), now, setting)
      ensures history != [] && Last(history).Go? && Last(history).c == c && (r.None? <==> Last(history).a.FailFetch?)
      ensures Last(history).a.Store? ==> u in entries && entries[u] == Entry(r.value, now)
      ensures var found := Run(old(history) + Others(plan.before, l, ids), setting);
        CallFits(setting, u, Find(found.entries, u), plan, found.now, r, now) && found.now == old(now) + Passes(plan.before)
    {
      Elapse(plan.before, l, ids);
      var entry := LookUpEntry(u, c);
      r := AfterLookUp(u, c, plan, l, ids);
      if r.Some? {
        ReturnFits(c, old(now));
      }
    }

    /** The freshness test, and the fetch if it fails. */
    method AfterLookUp(u: User, c: CheckId, plan: Plan, l: LoginId, ids: seq<CheckId>) returns (r: Option<seq<Key>>)
      requires Sound() && c in ids && c in checks && checks[c].Found? && checks[c].user == u
      modifies this
      ensures Sound() && Kept(l, ids, Some(c))
      ensures c in checks && checks[c] == Back(u, old(checks[c].since), now, r)
      ensures history != [] && Last(history).Go? && Last(history).c == c && (r.None? <==> Last(history).a.FailFetch?)
      ensures Last(history).a.Store? ==> u in entries && entries[u] == Entry(r.value, now)
      ensures CallFits(setting, u, old(checks[c].entry), plan, old(now), r, now)
    {
      var entry := checks[c].entry;
      Elapse(plan.deciding, l, ids);
      if entry.Some? && now - entry.value.fetchedAt < setting.ttl {
        r := Some(entry.value.keys);
        Finish(c, Decide, r);
      } else {
        ghost var was := View();
        checks := checks[c := Fetching(u, checks[c].since)];
        Note(was, Go(c, Decide));
        r := Fetch(u, c, plan, l, ids);
      }
    }

    /** GitHub serves the list. */
    method Receive(u: User, c: CheckId) returns (keys: seq<Key>)
      requires Sound() && c in checks && checks[c].Fetching? && checks[c].user == u
      modifies `checks, `history
      ensures Sound() && history == old(history) + [Go(c, Serve)]
      ensures keys == setting.github(u, now) && checks == old(checks)[c := Served(u, old(checks)[c].since, keys, now)]
    {
      ghost var was := View();
      keys := setting.github(u, now);
      checks := checks[c := Served(u, checks[c].since, keys, now)];
      Note(was, Go(c, Serve));
    }

    /** fetchKeys and the second critical section. */
    method Fetch(u: User, c: CheckId, plan: Plan, l: LoginId, ids: seq<CheckId>) returns (r: Option<seq<Key>>)
      requires Sound() && c in ids && c in checks && checks[c].Fetching? && checks[c].user == u
      modifies this
      ensures Sound() && Kept(l, ids, Some(c))
      ensures c in checks && checks[c] == Back(u, old(checks[c].since), now, r)
      ensures history != [] && Last(history) == Go(c, if r.None? then FailFetch else Store)
      ensures r.Some? ==> u in entries && entries[u] == Entry(r.value, now)
      ensures FetchFits(setting, u, plan, old(now), r, now)
    {
      Elapse(plan.serving, l, ids);
      r := None;
      if plan.served {
        var keys := Receive(u, c);
        Elapse(plan.storing, l, ids);
        if plan.stored && now - checks[c].servedAt <= setting.delay {
          r := Some(keys);
        }
      }
      Finish(c, if r.Some? then Store else FailFetch, r);
    }
  }

  // ----- Authenticate -----

  lemma MatchedOneMore(allowed: seq<User>, got: seq<Got>, key: Key, g: Got)
    requires |got| < |allowed|
    ensures MatchedUsers(allowed, Lists(got + [g]), key)
      == MatchedUsers(allowed, Lists(got), key) + if key in g.keys then [allowed[|got|]] else []
  {
    assert Lists(got + [g])[..|got|] == Lists(got);
  }

  /** The login goes on with what its call returned. */
  method Take(cache: Cache, l: LoginId, c: CheckId, u: User, r: Option<seq<Key>>)
    requires cache.Sound() && l in cache.logins && Returned(cache.logins[l], cache.checks, cache.setting.allowed, c)
    requires cache.checks[c].result == r && cache.checks[c].at == cache.now && cache.checks[c].user == u
    modifies cache`logins, cache`history
    ensures cache.Sound() && cache.history == old(cache.history) + [TakeBack(l, c)]
    ensures cache.logins == old(cache.logins)[l := var v := old(cache.logins[l]);
                                                   if r.None? then v.(verdict := Some(FetchFailed(u)), ended := cache.now)
                                                   else v.(got := v.got + [Got(r.value, cache.now)])]
  {
    ghost var was := cache.View();
    var v := cache.logins[l];
    if r.None? {
      cache.logins := cache.logins[l := v.(verdict := Some(FetchFailed(u)), ended := cache.now)];
    } else {
      cache.logins := cache.logins[l := v.(got := v.got + [Got(r.value, cache.now)])];
    }
    cache.Note(was, TakeBack(l, c));
  }

  /** Of a login's calls those from position i on have not been made. */
  ghost predicate Unmade(cache: Cache, ids: seq<CheckId>, i: nat)
    reads cache
  {
    forall j | i <= j < |ids| :: ids[j] !in cache.checks
  }

  /** The loop over the allow-list, up to the first failure. */
  method Collect(cache: Cache, l: LoginId, key: Key, ids: seq<CheckId>, plans: seq<Plan>) returns (failed: bool, matched: seq<User>)
    requires cache.Sound() && l in cache.logins && cache.logins[l] == Login(key, cache.now, [], None, cache.now)
    requires |ids| == |plans| == |cache.setting.allowed| && Unmade(cache, ids, 0)
    requires forall i, j | 0 <= i < j < |ids| :: ids[i] != ids[j]
    modifies cache
    ensures cache.Sound() && old(cache.history) <= cache.history && l in cache.logins
    ensures var v := cache.logins[l];
      && v.key == key && v.begun == old(cache.now)
      && if failed then
           && |v.got| < |ids| && v.verdict == Some(FetchFailed(cache.setting.allowed[|v.got|])) && v.ended == cache.now
         else |v.got| == |ids| && v.verdict.None? && matched == MatchedUsers(cache.setting.allowed, Lists(v.got), key)
    ensures failed ==> !Succeeds(plans[|cache.logins[l].got|], cache.setting.delay)
  {
    var allowed := cache.setting.allowed;
    failed, matched := false, [];
    for i := 0 to |allowed|
      invariant cache.Sound() && old(cache.history) <= cache.history
      invariant l in cache.logins && Unmade(cache, ids, i)
      invariant var v := cache.logins[l];
        && v.key == key && v.begun == old(cache.now) && v.verdict.None? && |v.got| == i && Waits(v) <= cache.now
        && matched == MatchedUsers(allowed, Lists(v.got), key)
    {
      ghost var got := cache.logins[l].got;
      var keys := cache.Keys(allowed[i], ids[i], plans[i], l, ids);
      Take(cache, l, ids[i], allowed[i], keys);
      if keys.None? {
        return true, matched;
      }
      MatchedOneMore(allowed, got, key, Got(keys.value, cache.now));
      if key in keys.value {
        matched := matched + [allowed[i]];
      }
    }
  }

  /**
   Authenticate, as login l with the calls ids, beside any other calls and logins: it decides the login by the lists it
   got, and never accepts a key that GitHub had stopped serving for that user so long before the login began.
   */
  method Authenticate(cache: Cache, l: LoginId, key: Key, ids: seq<CheckId>, plans: seq<Plan>, last: seq<Step>)
    returns (verdict: Verdict)
    requires cache.Sound() && l !in cache.logins
    requires |ids| == |plans| == |cache.setting.allowed| && Unmade(cache, ids, 0)
    requires forall i, j | 0 <= i < j < |ids| :: ids[i] != ids[j]
    modifies cache
    ensures cache.Sound() && old(cache.history) <= cache.history && l in cache.logins
    ensures var v := cache.logins[l]; v.key == key && v.begun == old(cache.now) && v.ended == cache.now && v.verdict == Some(verdict)
    ensures VerdictFits(cache.setting.allowed, Lists(cache.logins[l].got), key, verdict)
    ensures (forall i | 0 <= i < |plans| :: Succeeds(plans[i], cache.setting.delay)) ==> !verdict.FetchFailed?
    ensures RefusesGone(cache.setting, old(cache.now), key, verdict)
  {
    ghost var was := cache.View();
    cache.logins := cache.logins[l := Login(key, cache.now, [], None, cache.now)];
    cache.Note(was, Begin(l, key));
    var failed, matched := Collect(cache, l, key, ids, plans);
    if failed {
      return cache.logins[l].verdict.value;
    }
    cache.Elapse(last, l, ids);
    verdict := if |matched| == 0 then UnknownKey else if |matched| == 1 then Accepted(matched[0]) else AmbiguousKey;
    was := cache.View();
    cache.logins := cache.logins[l := cache.logins[l].(verdict := Some(verdict), ended := cache.now)];
    cache.Note(was, Conclude(l));
    VerdictIsRight(cache.setting.allowed, Lists(cache.logins[l].got), key);
    AcceptedIsNotGone(cache.history, cache.setting, l);
  }

  /** The user that a login begun at a time was accepted as, if any, still had the key, or had it lately. */
  ghost predicate RefusesGone(w: Setting, begun: Time, key: Key, verdict: Verdict) {
    verdict.Accepted? ==>
      forall last: Time | Removed(w.github, verdict.user, key, last) :: begun < last + StartLag(w.ttl, w.delay)
  }

  lemma AcceptedIsNotGone(xs: seq<Step>, w: Setting, l: LoginId)
    requires l in Run(xs, w).logins && Run(xs, w).logins[l].verdict.Some?
    ensures var v := Run(xs, w).logins[l]; RefusesGone(w, v.begun, v.key, v.verdict.value)
  {
    var v := Run(xs, w).logins[l];
    if v.verdict.value.Accepted? {
      forall last: Time | Removed(w.github, v.verdict.value.user, v.key, last)
        ensures v.begun < last + StartLag(w.ttl, w.delay)
      {
        var i := AcceptedIsRecent(xs, w, l, v.verdict.value.user, last);
      }
    }
  }
}
