/**
 The two implementations of session-channel requests (section 6 of RFC 4254): the Kubernetes backend's loop
 (internal/server/session.go) and the filtering proxy in front of a backend SSH server (internal/server/sshproxy.go).
 */
module SessionRequests {
  import opened Base

  datatype Kind = PtyReq | Shell | Exec | Subsystem | WindowChange | Signal | Other

  /**
   A channel request. decodes says whether the payload unmarshals as its kind's message; text is that message's
   terminal, command, subsystem or signal name.
   */
  datatype Request = Request(kind: Kind, wantReply: bool, emptyPayload: bool, decodes: bool, text: string,
                             columns: nat, rows: nat)

  predicate Starts(kind: Kind) {
    kind.Shell? || kind.Exec? || kind.Subsystem?
  }

  const NUL := 0 as char

  // ----- The Kubernetes backend -----

  /** started is the request that began the one process of the session; sizes is what the resize queue was offered. */
  datatype Local = Local(tty: bool, term: string, columns: nat, rows: nat, started: Option<Request>, sizes: seq<(nat, nat)>,
                         verdicts: seq<bool>)

  const NEW_LOCAL := Local(false, "", 80, 24, None, [], [])

  predicate AcceptsLocally(s: Local, r: Request) {
    && s.started.None?
    && match r.kind
       case PtyReq => !s.tty && r.decodes && NUL !in r.text
       case Shell => r.emptyPayload
       case Exec => r.decodes && NUL !in r.text
       case Subsystem => r.decodes && r.text == "sftp" && !s.tty
       case _ => false
  }

  function LocalStep(s: Local, r: Request): Local {
    var s' := s.(verdicts := s.verdicts + [AcceptsLocally(s, r)]);
    if !AcceptsLocally(s, r) then
      if s.started.Some? && r.kind.WindowChange? && r.decodes then s'.(sizes := s.sizes + [(r.columns, r.rows)]) else s'
    else if r.kind.PtyReq? then
      var s'' := s'.(tty := true, term := r.text);
      if r.columns > 0 && r.rows > 0 then s''.(columns := r.columns, rows := r.rows) else s''
    else s'.(started := Some(r), sizes := s.sizes + [(s.columns, s.rows)])
  }

  function LocalRun(rs: seq<Request>): Local {
    if rs == [] then NEW_LOCAL else LocalStep(LocalRun(rs[..|rs| - 1]), Last(rs))
  }

  lemma LateRequest(rs: seq<Request>, i: nat)
    requires i < |rs| && LocalRun(rs[..i]).started.Some?
    ensures var s := LocalRun(rs[..i]);
      LocalRun(rs[..i + 1]) == s.(verdicts := s.verdicts + [false],
        sizes := s.sizes + if rs[i].kind.WindowChange? && rs[i].decodes then [(rs[i].columns, rs[i].rows)] else [])
  {
    assert rs[..i + 1][..i] == rs[..i];
  }

  /** While the process runs: only window changes are looked at, and nothing is granted. */
  method DrainRequests(rs: seq<Request>, from: nat, offered: seq<(nat, nat)>, given: seq<bool>)
    returns (sizes: seq<(nat, nat)>, verdicts: seq<bool>)
    requires from <= |rs| && LocalRun(rs[..from]).started.Some?
    requires LocalRun(rs[..from]).sizes == offered && LocalRun(rs[..from]).verdicts == given
    ensures LocalRun(rs) == LocalRun(rs[..from]).(sizes := sizes, verdicts := verdicts)
  {
    sizes, verdicts := offered, given;
    ghost var s := LocalRun(rs[..from]);
    for i := from to |rs|
      invariant LocalRun(rs[..i]) == s.(sizes := sizes, verdicts := verdicts)
    {
      LateRequest(rs, i);
      var r := rs[i];
      if r.kind.WindowChange? && r.decodes {
        sizes := sizes + [(r.columns, r.rows)];
      } else {
        assert sizes + [] == sizes;
      }
      verdicts := verdicts + [false];
    }
    assert rs[..|rs|] == rs;
  }

  /** The loop over requests, up to a start request, and the process, with its terminal if it has one. */
  method HandleSession(rs: seq<Request>)
    returns (verdicts: seq<bool>, started: Option<Request>, sizes: seq<(nat, nat)>, tty: bool, term: string)
    ensures verdicts == LocalRun(rs).verdicts && started == LocalRun(rs).started && sizes == LocalRun(rs).sizes
    ensures tty == LocalRun(rs).tty && term == LocalRun(rs).term
  {
    var columns, rows := 80, 24;
    tty, term, verdicts, started, sizes := false, "", [], None, [];
    var i := 0;
    while i < |rs| && started.None?
      invariant i <= |rs|
      invariant LocalRun(rs[..i]) == Local(tty, term, columns, rows, started, sizes, verdicts)
    {
      var r := rs[i];
      assert rs[..i + 1][..i] == rs[..i];
      var valid;
      match r.kind {
        case PtyReq =>
          valid := !tty && r.decodes && NUL !in r.text;
          if valid {
            tty, term := true, r.text;
            if r.columns > 0 && r.rows > 0 {
              columns, rows := r.columns, r.rows;
            }
          }
        case Shell => valid := r.emptyPayload;
        case Exec => valid := r.decodes && NUL !in r.text;
        case Subsystem => valid := r.decodes && r.text == "sftp" && !tty;
        case _ => valid := false;
      }
      verdicts := verdicts + [valid];
      if valid && Starts(r.kind) {
        started, sizes := Some(r), sizes + [(columns, rows)];
      }
      i := i + 1;
    }
    if started.Some? {
      sizes, verdicts := DrainRequests(rs, i, sizes, verdicts);
    }
    assert rs[..|rs|] == rs;
  }

  /** Whether the i-th request was granted. */
  predicate Granted(s: Local, i: nat) {
    i < |s.verdicts| && s.verdicts[i]
  }

  /** What the verdicts say of the session's state, and of each other. */
  ghost predicate LocalFits(s: Local, rs: seq<Request>) {
    && |s.verdicts| == |rs|
    && (forall i | 0 <= i < |rs| :: Granted(s, i) ==> rs[i].kind.PtyReq? || Starts(rs[i].kind))
    && (forall i, j | 0 <= i < j < |rs| && Granted(s, i) && Granted(s, j) ::
          rs[i].kind.PtyReq? && Starts(rs[j].kind) && !rs[j].kind.Subsystem?)
    && (s.tty <==> exists i | 0 <= i < |rs| :: Granted(s, i) && rs[i].kind.PtyReq?)
    && (forall i | 0 <= i < |rs| && Granted(s, i) && rs[i].kind.PtyReq? :: s.term == rs[i].text)
    && (s.started.Some? <==> exists i | 0 <= i < |rs| :: Granted(s, i) && Starts(rs[i].kind))
    && (forall i | 0 <= i < |rs| && Granted(s, i) && Starts(rs[i].kind) :: s.started == Some(rs[i]))
  }

  lemma LocalFitsOneMore(s: Local, rs: seq<Request>)
    requires rs != [] && LocalFits(s, rs[..|rs| - 1])
    ensures LocalFits(LocalStep(s, Last(rs)), rs)
  {
    var t, n := LocalStep(s, Last(rs)), |rs| - 1;
    forall i: nat ensures Granted(t, i) <==> Granted(s, i) || (i == n && AcceptsLocally(s, rs[n])) { }
    forall i | 0 <= i < n ensures rs[..n][i] == rs[i] { }
  }

  /**
   The Kubernetes loop grants at most one pty-req and then at most one start, no subsystem after a pty-req, and
   nothing else; the process that starts is the start's, on a terminal exactly when one was granted.
   */
  lemma {:induction false} LocalGrantsInOrder(rs: seq<Request>)
    ensures LocalFits(LocalRun(rs), rs)
  {
    if rs != [] {
      var n := |rs| - 1;
      LocalGrantsInOrder(rs[..n]);
      LocalFitsOneMore(LocalRun(rs[..n]), rs);
    }
  }

  /** Whether a request before the i-th was granted and is of that sort. */
  predicate StartBefore(verdicts: seq<bool>, rs: seq<Request>, i: nat)
    requires i <= |verdicts| && i <= |rs|
  {
    exists j | 0 <= j < i :: verdicts[j] && Starts(rs[j].kind)
  }

  predicate PtyBefore(verdicts: seq<bool>, rs: seq<Request>, i: nat)
    requires i <= |verdicts| && i <= |rs|
  {
    exists j | 0 <= j < i :: verdicts[j] && rs[j].kind.PtyReq?
  }

  /** A pty-req or a start that is well formed, and comes at its time: one of each, the start last, no PTY for SFTP. */
  predicate InPlace(r: Request, startBefore: bool, ptyBefore: bool) {
    && !startBefore
    && ((r.kind.PtyReq? && !ptyBefore && r.decodes && NUL !in r.text)
        || (r.kind.Shell? && r.emptyPayload)
        || (r.kind.Exec? && r.decodes && NUL !in r.text)
        || (r.kind.Subsystem? && !ptyBefore && r.decodes && r.text == "sftp"))
  }

  lemma AcceptsInPlace(s: Local, r: Request)
    ensures AcceptsLocally(s, r) <==> InPlace(r, s.started.Some?, s.tty)
  {
  }

  lemma VerdictAt(rs: seq<Request>, i: nat)
    requires i < |rs|
    ensures |LocalRun(rs).verdicts| == |rs|
    ensures LocalRun(rs).verdicts[i] == AcceptsLocally(LocalRun(rs[..i]), rs[i])
  {
    LocalVerdictsGrow(rs, i + 1);
    LocalVerdictsGrow(rs, i);
    assert rs[..i + 1][..i] == rs[..i];
    assert LocalRun(rs).verdicts[i] == LocalRun(rs).verdicts[..i + 1][i];
  }

  /** What the session's state says of the requests before. */
  lemma FlagsTellBefore(s: Local, before: seq<Request>, verdicts: seq<bool>, rs: seq<Request>)
    requires LocalFits(s, before) && before <= rs && s.verdicts <= verdicts
    ensures s.started.Some? <==> StartBefore(verdicts, rs, |before|)
    ensures s.tty <==> PtyBefore(verdicts, rs, |before|)
  {
    assert forall j | 0 <= j < |before| :: Granted(s, j) == verdicts[j] && before[j] == rs[j];
  }

  /** The Kubernetes loop grants exactly the pty-reqs and starts that are in place. */
  lemma LocalGrantsExactly(rs: seq<Request>, i: nat)
    requires i < |rs|
    ensures |LocalRun(rs).verdicts| == |rs|
    ensures var v := LocalRun(rs).verdicts; v[i] <==> InPlace(rs[i], StartBefore(v, rs, i), PtyBefore(v, rs, i))
  {
    var s := LocalRun(rs[..i]);
    VerdictAt(rs, i);
    AcceptsInPlace(s, rs[i]);
    LocalVerdictsGrow(rs, i);
    LocalGrantsInOrder(rs[..i]);
    FlagsTellBefore(s, rs[..i], LocalRun(rs).verdicts, rs);
  }

  lemma {:induction false} LocalVerdictsGrow(rs: seq<Request>, i: nat)
    requires i <= |rs|
    ensures |LocalRun(rs).verdicts| == |rs| && |LocalRun(rs[..i]).verdicts| == i
    ensures LocalRun(rs[..i]).verdicts == LocalRun(rs).verdicts[..i]
  {
    LocalVerdictsCount(rs[..i]);
    LocalVerdictsCount(rs);
    if i == |rs| {
      assert rs[..i] == rs;
    } else {
      var n := |rs| - 1;
      assert rs[..n][..i] == rs[..i];
      LocalVerdictsGrow(rs[..n], i);
    }
  }

  lemma {:induction false} LocalVerdictsCount(rs: seq<Request>)
    ensures |LocalRun(rs).verdicts| == |rs|
  {
    if rs != [] {
      LocalVerdictsCount(rs[..|rs| - 1]);
    }
  }

  /** The sizes of the decodable window changes, in order. */
  function WindowSizes(rs: seq<Request>): seq<(nat, nat)> {
    if rs == [] then [] else
      var r := Last(rs);
      WindowSizes(rs[..|rs| - 1]) + if r.kind.WindowChange? && r.decodes then [(r.columns, r.rows)] else []
  }

  /** The size that the granted pty-req asks for, unless a dimension of it is zero; 80 by 24 otherwise. */
  predicate FirstSize(s: Local, rs: seq<Request>, columns: nat, rows: nat)
    requires |s.verdicts| == |rs|
  {
    && ((forall i | 0 <= i < |rs| :: !(s.verdicts[i] && rs[i].kind.PtyReq?)) ==> (columns, rows) == (80, 24))
    && forall i | 0 <= i < |rs| && s.verdicts[i] && rs[i].kind.PtyReq? ::
         (columns, rows) == if rs[i].columns > 0 && rs[i].rows > 0 then (rs[i].columns, rs[i].rows) else (80, 24)
  }

  /** Before the start, request n, no size is offered; then the first one, and every later window change. */
  ghost predicate Offers(s: Local, rs: seq<Request>, n: nat)
    requires |s.verdicts| == |rs|
  {
    && (s.started.None? ==> s.sizes == [])
    && (s.started.Some? ==> n < |rs| && s.verdicts[n] && Starts(rs[n].kind) && s.sizes == [(s.columns, s.rows)] + WindowSizes(rs[n + 1..]))
  }

  ghost predicate SizesFit(s: Local, rs: seq<Request>, n: nat) {
    |s.verdicts| == |rs| && FirstSize(s, rs, s.columns, s.rows) && Offers(s, rs, n)
  }

  lemma {:induction false} SizesAreOffered(rs: seq<Request>) returns (n: nat)
    ensures SizesFit(LocalRun(rs), rs, n)
  {
    n := 0;
    if rs != [] {
      var m := |rs| - 1;
      n := SizesAreOffered(rs[..m]);
      LocalGrantsInOrder(rs[..m]);
      n := SizesFitOneMore(LocalRun(rs[..m]), rs, n);
    }
  }

  lemma SizesFitOneMore(s: Local, rs: seq<Request>, n: nat) returns (n': nat)
    requires rs != [] && LocalFits(s, rs[..|rs| - 1]) && SizesFit(s, rs[..|rs| - 1], n)
    ensures SizesFit(LocalStep(s, Last(rs)), rs, n')
  {
    FirstSizeOneMore(s, LocalStep(s, Last(rs)), rs);
    n' := OffersOneMore(s, rs, n);
  }

  lemma OffersOneMore(s: Local, rs: seq<Request>, n: nat) returns (n': nat)
    requires rs != [] && |s.verdicts| == |rs| - 1 && Offers(s, rs[..|rs| - 1], n)
    ensures Offers(LocalStep(s, Last(rs)), rs, n')
  {
    var m := |rs| - 1;
    n' := if s.started.None? && LocalStep(s, Last(rs)).started.Some? then m else n;
    if s.started.Some? {
      assert rs[n + 1..][..m - (n + 1)] == rs[..m][n + 1..] && Last(rs[n + 1..]) == rs[m];
    } else {
      assert WindowSizes(rs[m + 1..]) == [];
    }
  }

  lemma FirstSizeOneMore(s: Local, t: Local, rs: seq<Request>)
    requires rs != [] && LocalFits(s, rs[..|rs| - 1]) && t == LocalStep(s, Last(rs))
    requires FirstSize(s, rs[..|rs| - 1], s.columns, s.rows)
    ensures FirstSize(t, rs, t.columns, t.rows)
  {
    var m := |rs| - 1;
    assert forall i | 0 <= i < m :: t.verdicts[i] == s.verdicts[i] && rs[..m][i] == rs[i] && (Granted(s, i) == s.verdicts[i]);
  }

  // ----- The proxy -----

  predicate ValidProxyRequest(r: Request, started: bool, pty: bool) {
    match r.kind
    case PtyReq => !started && !pty && r.decodes && NUL !in r.text
    case Shell => !started && r.emptyPayload
    case Exec => !started && r.decodes && NUL !in r.text
    case Subsystem => !started && !pty && r.decodes && r.text == "sftp"
    case WindowChange => pty && r.decodes
    case Signal => started && r.decodes && NUL !in r.text
    case Other => false
  }

  /** How the backend takes a forwarded request: broken is a transport error; ok means nothing without want-reply. */
  datatype Answer = Answer(ok: bool, broken: bool)

  /** A request that went to the backend; a want-reply one has an effect only if the backend said yes. */
  datatype Sent = Sent(request: Request, effective: bool)

  /** An answer to the client's i-th request. */
  datatype Reply = Reply(i: nat, ok: bool)

  datatype Proxy = Proxy(started: bool, pty: bool, broken: bool, sent: seq<Sent>, replies: seq<Reply>, verdicts: seq<bool>)

  const NEW_PROXY := Proxy(false, false, false, [], [], [])

  function ProxyStep(s: Proxy, i: nat, r: Request, a: Answer): Proxy {
    if s.broken then s
    else if !ValidProxyRequest(r, s.started, s.pty) then
      s.(replies := s.replies + (if r.wantReply then [Reply(i, false)] else []), verdicts := s.verdicts + [false])
    else if a.broken then s.(broken := true)
    else
      var effective := !r.wantReply || a.ok;
      s.(started := s.started || (effective && Starts(r.kind)),
         pty := s.pty || (effective && r.kind.PtyReq?),
         sent := s.sent + [Sent(r, effective)],
         replies := s.replies + (if r.wantReply then [Reply(i, a.ok)] else []),
         verdicts := s.verdicts + [effective])
  }

  /** answers says how the backend takes the i-th request, if it is forwarded. */
  function ProxyRun(rs: seq<Request>, answers: nat -> Answer): Proxy
  {
    if rs == [] then NEW_PROXY
    else ProxyStep(ProxyRun(rs[..|rs| - 1], answers), |rs| - 1, Last(rs), answers(|rs| - 1))
  }

  /** The proxy's request goroutine. */
  method ProxyRequests(rs: seq<Request>, answers: nat -> Answer) returns (sent: seq<Sent>, replies: seq<Reply>, broken: bool)
    ensures var s := ProxyRun(rs, answers); sent == s.sent && replies == s.replies && broken == s.broken
  {
    var started, pty := false, false;
    ghost var verdicts := [];
    sent, replies, broken := [], [], false;
    var i := 0;
    while i < |rs| && !broken
      invariant i <= |rs|
      invariant ProxyRun(rs[..i], answers) == Proxy(started, pty, broken, sent, replies, verdicts)
    {
      var r, ok := rs[i], answers(i).ok;
      assert rs[..i + 1][..i] == rs[..i];
      if !ValidProxyRequest(r, started, pty) {
        if r.wantReply {
          replies := replies + [Reply(i, false)];
        }
        verdicts := verdicts + [false];
      } else if answers(i).broken {
        broken := true;
      } else {
        if !r.wantReply || ok {
          match r.kind {
            case PtyReq => pty := true;
            case Shell => started := true;
            case Exec => started := true;
            case Subsystem => started := true;
            case _ =>
          }
        }
        sent := sent + [Sent(r, !r.wantReply || ok)];
        if r.wantReply {
          replies := replies + [Reply(i, ok)];
        }
        verdicts := verdicts + [!r.wantReply || ok];
      }
      i := i + 1;
    }
    if broken {
      BrokenStays(rs, answers, i);
    } else {
      assert rs[..|rs|] == rs;
    }
  }

  lemma {:induction false} BrokenStays(rs: seq<Request>, answers: nat -> Answer, i: nat)
    requires i <= |rs| && ProxyRun(rs[..i], answers).broken
    ensures ProxyRun(rs, answers) == ProxyRun(rs[..i], answers)
  {
    if i < |rs| {
      var n := |rs| - 1;
      assert rs[..n][..i] == rs[..i];
      BrokenStays(rs[..n], answers, i);
    } else {
      assert rs[..i] == rs;
    }
  }

  // ----- What the backend is sent -----

  predicate EffectiveStart(x: Sent) {
    x.effective && Starts(x.request.kind)
  }

  predicate EffectivePty(x: Sent) {
    x.effective && x.request.kind.PtyReq?
  }

  /** What may follow what on the way to the backend. */
  predicate InOrder(earlier: Sent, later: Sent) {
    && (EffectiveStart(earlier) ==> !Starts(later.request.kind) && !later.request.kind.PtyReq?)
    && (EffectivePty(earlier) ==> !later.request.kind.PtyReq? && !later.request.kind.Subsystem?)
  }

  /** started and pty say whether such a request has taken effect. */
  predicate FlagsFit(s: Proxy) {
    && (s.started <==> exists x :: x in s.sent && EffectiveStart(x))
    && (s.pty <==> exists x :: x in s.sent && EffectivePty(x))
  }

  predicate OrderFits(sent: seq<Sent>) {
    forall i, j | 0 <= i < j < |sent| :: InOrder(sent[i], sent[j])
  }

  /** What x needs to have gone before it. */
  predicate Led(before: seq<Sent>, x: Sent) {
    && (x.request.kind.WindowChange? ==> exists y :: y in before && EffectivePty(y))
    && (x.request.kind.Signal? ==> exists y :: y in before && EffectiveStart(y))
    && !x.request.kind.Other?
  }

  predicate SentFits(s: Proxy) {
    FlagsFit(s) && OrderFits(s.sent) && forall j | 0 <= j < |s.sent| :: Led(s.sent[..j], s.sent[j])
  }

  lemma FlagsFitOneMore(s: Proxy, x: Sent, t: Proxy)
    requires FlagsFit(s) && t.sent == s.sent + [x]
    requires t.started == (s.started || EffectiveStart(x)) && t.pty == (s.pty || EffectivePty(x))
    ensures FlagsFit(t)
  {
    assert x in t.sent;
    if s.started {
      var y :| y in s.sent && EffectiveStart(y);
      assert y in t.sent;
    }
    if s.pty {
      var y :| y in s.sent && EffectivePty(y);
      assert y in t.sent;
    }
    assert forall y <- t.sent :: y in s.sent || y == x;
  }

  lemma OrderFitsOneMore(s: Proxy, x: Sent)
    requires FlagsFit(s) && OrderFits(s.sent) && ValidProxyRequest(x.request, s.started, s.pty)
    ensures OrderFits(s.sent + [x])
  {
    forall y <- s.sent ensures InOrder(y, x) {
      assert y in s.sent;
    }
  }

  lemma SentFitsOneMore(s: Proxy, x: Sent, t: Proxy)
    requires SentFits(s) && ValidProxyRequest(x.request, s.started, s.pty)
    requires t.sent == s.sent + [x]
    requires t.started == (s.started || EffectiveStart(x)) && t.pty == (s.pty || EffectivePty(x))
    ensures SentFits(t)
  {
    FlagsFitOneMore(s, x, t);
    OrderFitsOneMore(s, x);
    forall j | 0 <= j < |t.sent| ensures Led(t.sent[..j], t.sent[j]) {
      if j < |s.sent| {
        assert t.sent[..j] == s.sent[..j] && Led(s.sent[..j], s.sent[j]);
      } else {
        assert t.sent[..j] == s.sent;
      }
    }
  }

  /**
   For every sequence of requests and every pattern of refusals and breakages: after a start that took effect no
   start and no pty-req reaches the backend, after a pty-req that took effect no pty-req and no subsystem does,
   a window-change only follows an effective pty-req, and a signal only an effective start.
   */
  lemma {:induction false} ProxySendsInOrder(rs: seq<Request>, answers: nat -> Answer)
    ensures SentFits(ProxyRun(rs, answers))
  {
    if rs != [] {
      var n := |rs| - 1;
      ProxySendsInOrder(rs[..n], answers);
      var s := ProxyRun(rs[..n], answers);
      var t := ProxyRun(rs, answers);
      if t.sent != s.sent {
        SentFitsOneMore(s, Last(t.sent), t);
      }
    }
  }

  /** So at most one start and at most one pty-req take effect. */
  lemma AtMostOneStart(rs: seq<Request>, answers: nat -> Answer, i: nat, j: nat)
    requires i < |ProxyRun(rs, answers).sent| && j < |ProxyRun(rs, answers).sent|
    ensures var sent := ProxyRun(rs, answers).sent;
      && (EffectiveStart(sent[i]) && EffectiveStart(sent[j]) ==> i == j)
      && (EffectivePty(sent[i]) && EffectivePty(sent[j]) ==> i == j)
      && (EffectivePty(sent[i]) && EffectiveStart(sent[j]) ==> i < j)
  {
    ProxySendsInOrder(rs, answers);
    var sent := ProxyRun(rs, answers).sent;
    if i < j {
      assert InOrder(sent[i], sent[j]);
    } else if j < i {
      assert InOrder(sent[j], sent[i]);
    }
  }

  // ----- Exactly what is forwarded -----

  /** A request that the backend may get: one that is in place, or that concerns an effective PTY or process. */
  predicate Admitted(r: Request, startBefore: bool, ptyBefore: bool) {
    || InPlace(r, startBefore, ptyBefore)
    || (r.kind.WindowChange? && ptyBefore && r.decodes)
    || (r.kind.Signal? && startBefore && r.decodes && NUL !in r.text)
  }

  /** Positions at of the requests, in order, and what went to the backend for them. */
  predicate SentFrom(sent: seq<Sent>, verdicts: seq<bool>, rs: seq<Request>, at: seq<nat>) {
    && |at| == |sent|
    && (forall j | 0 <= j < |at| :: at[j] < |verdicts| <= |rs| && sent[j] == Sent(rs[at[j]], verdicts[at[j]]))
    && forall i, j | 0 <= i < j < |at| :: at[i] < at[j]
  }

  /** With how it was answered, each request so far has been admitted and forwarded, or neither. */
  predicate AnsweredRight(s: Proxy, rs: seq<Request>, answers: nat -> Answer, at: seq<nat>, i: nat)
    requires i < |s.verdicts| <= |rs|
  {
    var admitted := Admitted(rs[i], StartBefore(s.verdicts, rs, i), PtyBefore(s.verdicts, rs, i));
    && (i in at <==> admitted)
    && (s.verdicts[i] <==> admitted && (!rs[i].wantReply || answers(i).ok))
    && (admitted ==> !answers(i).broken)
  }

  ghost predicate ForwardsExactly(s: Proxy, rs: seq<Request>, answers: nat -> Answer, at: seq<nat>) {
    && |s.verdicts| <= |rs|
    && SentFrom(s.sent, s.verdicts, rs, at)
    && (forall i | 0 <= i < |s.verdicts| :: AnsweredRight(s, rs, answers, at, i))
    && (s.started <==> StartBefore(s.verdicts, rs, |s.verdicts|))
    && (s.pty <==> PtyBefore(s.verdicts, rs, |s.verdicts|))
    && (if s.broken then
          var n := |s.verdicts|;
          n < |rs| && answers(n).broken && Admitted(rs[n], StartBefore(s.verdicts, rs, n), PtyBefore(s.verdicts, rs, n))
        else |s.verdicts| == |rs|)
  }

  /** What is so of the first requests stays so when more come. */
  lemma MoreRequests(s: Proxy, before: seq<Request>, rs: seq<Request>, answers: nat -> Answer, at: seq<nat>)
    requires ForwardsExactly(s, before, answers, at) && before <= rs
    ensures forall i | 0 <= i < |s.verdicts| :: AnsweredRight(s, rs, answers, at, i)
    ensures s.started <==> StartBefore(s.verdicts, rs, |s.verdicts|)
    ensures s.pty <==> PtyBefore(s.verdicts, rs, |s.verdicts|)
    ensures SentFrom(s.sent, s.verdicts, rs, at)
    ensures s.broken ==> ForwardsExactly(s, rs, answers, at)
  {
    forall i | 0 <= i <= |s.verdicts|
      ensures StartBefore(s.verdicts, rs, i) == StartBefore(s.verdicts, before, i)
      ensures PtyBefore(s.verdicts, rs, i) == PtyBefore(s.verdicts, before, i)
    {
      assert forall j | 0 <= j < i :: rs[j] == before[j];
    }
    forall i | 0 <= i < |s.verdicts| ensures AnsweredRight(s, rs, answers, at, i) {
      assert AnsweredRight(s, before, answers, at, i);
    }
  }

  lemma ValidIsAdmitted(r: Request, started: bool, pty: bool)
    ensures ValidProxyRequest(r, started, pty) <==> Admitted(r, started, pty)
  {
  }

  lemma BeforeOneMore(verdicts: seq<bool>, v: bool, rs: seq<Request>)
    requires |verdicts| < |rs|
    ensures var longer, n := verdicts + [v], |verdicts|;
      && (forall i | 0 <= i <= n :: StartBefore(longer, rs, i) == StartBefore(verdicts, rs, i)
                                    && PtyBefore(longer, rs, i) == PtyBefore(verdicts, rs, i))
      && (StartBefore(longer, rs, n + 1) <==> StartBefore(verdicts, rs, n) || (v && Starts(rs[n].kind)))
      && (PtyBefore(longer, rs, n + 1) <==> PtyBefore(verdicts, rs, n) || (v && rs[n].kind.PtyReq?))
  {
    var longer, n := verdicts + [v], |verdicts|;
    forall i | 0 <= i <= n
      ensures StartBefore(longer, rs, i) == StartBefore(verdicts, rs, i) && PtyBefore(longer, rs, i) == PtyBefore(verdicts, rs, i)
    {
      assert forall j | 0 <= j < i :: longer[j] == verdicts[j];
    }
    assert longer[n] == v;
    assert forall j | 0 <= j < n :: longer[j] == verdicts[j];
  }

  /**
   On every sequence of requests and every pattern of answers the backend is sent exactly the admitted requests, as
   they are and in order, up to the first that the transport breaks at; one has effect unless it wants a reply and
   is refused.
   */
  lemma {:induction false} ProxyForwardsExactly(rs: seq<Request>, answers: nat -> Answer) returns (at: seq<nat>)
    ensures ForwardsExactly(ProxyRun(rs, answers), rs, answers, at)
  {
    at := [];
    if rs != [] {
      var n := |rs| - 1;
      at := ProxyForwardsExactly(rs[..n], answers);
      var s, t := ProxyRun(rs[..n], answers), ProxyRun(rs, answers);
      MoreRequests(s, rs[..n], rs, answers, at);
      if !s.broken {
        at := ForwardsOneMore(s, t, rs, answers, at);
      }
    }
  }

  /** A request that has got its verdict, and one that also went to the backend. */
  lemma SentFromOneMore(s: Proxy, v: bool, rs: seq<Request>, at: seq<nat>)
    requires |s.verdicts| < |rs| && SentFrom(s.sent, s.verdicts, rs, at)
    ensures SentFrom(s.sent, s.verdicts + [v], rs, at)
    ensures SentFrom(s.sent + [Sent(rs[|s.verdicts|], v)], s.verdicts + [v], rs, at + [|s.verdicts|])
  {
    forall j | 0 <= j < |at| ensures (s.verdicts + [v])[at[j]] == s.verdicts[at[j]] { }
  }

  lemma AnsweredRightLater(s: Proxy, t: Proxy, rs: seq<Request>, answers: nat -> Answer, at: seq<nat>, more: seq<nat>, i: nat)
    requires i < |s.verdicts| < |rs| && AnsweredRight(s, rs, answers, at, i)
    requires |t.verdicts| == |s.verdicts| + 1 && s.verdicts <= t.verdicts && (i in more <==> i in at)
    ensures AnsweredRight(t, rs, answers, more, i)
  {
    BeforeOneMore(s.verdicts, Last(t.verdicts), rs);
    assert t.verdicts == s.verdicts + [Last(t.verdicts)];
  }

  lemma ForwardsOneMore(s: Proxy, t: Proxy, rs: seq<Request>, answers: nat -> Answer, at: seq<nat>) returns (more: seq<nat>)
    requires rs != [] && |s.verdicts| == |rs| - 1 && !s.broken && t == ProxyStep(s, |rs| - 1, Last(rs), answers(|rs| - 1))
    requires SentFrom(s.sent, s.verdicts, rs, at)
    requires forall i | 0 <= i < |s.verdicts| :: AnsweredRight(s, rs, answers, at, i)
    requires s.started <==> StartBefore(s.verdicts, rs, |s.verdicts|)
    requires s.pty <==> PtyBefore(s.verdicts, rs, |s.verdicts|)
    ensures ForwardsExactly(t, rs, answers, more)
  {
    var n := |rs| - 1;
    ValidIsAdmitted(rs[n], s.started, s.pty);
    more := at;
    if t.broken {
      assert t == s.(broken := true);
      forall i | 0 <= i < n ensures AnsweredRight(t, rs, answers, at, i) {
        assert AnsweredRight(s, rs, answers, at, i);
      }
    } else {
      var forwarded := ValidProxyRequest(rs[n], s.started, s.pty);
      more := if forwarded then at + [n] else at;
      ForwardedOneMore(s, t, rs, answers, at, more);
    }
  }

  lemma ForwardedOneMore(s: Proxy, t: Proxy, rs: seq<Request>, answers: nat -> Answer, at: seq<nat>, more: seq<nat>)
    requires rs != [] && |s.verdicts| == |rs| - 1 && !s.broken && t == ProxyStep(s, |rs| - 1, Last(rs), answers(|rs| - 1))
    requires SentFrom(s.sent, s.verdicts, rs, at)
    requires forall i | 0 <= i < |s.verdicts| :: AnsweredRight(s, rs, answers, at, i)
    requires s.started <==> StartBefore(s.verdicts, rs, |s.verdicts|)
    requires s.pty <==> PtyBefore(s.verdicts, rs, |s.verdicts|)
    requires !t.broken && more == if ValidProxyRequest(Last(rs), s.started, s.pty) then at + [(|rs| - 1) as nat] else at
    ensures ForwardsExactly(t, rs, answers, more)
  {
    StepSends(s, t, rs, answers, at);
    StepIsAnsweredRight(s, t, rs, answers, at);
    EarlierAreAnsweredRight(s, t, rs, answers, at, more);
    AllAreAnsweredRight(t, rs, answers, more);
  }

  lemma AllAreAnsweredRight(t: Proxy, rs: seq<Request>, answers: nat -> Answer, at: seq<nat>)
    requires rs != [] && |t.verdicts| == |rs| && !t.broken && SentFrom(t.sent, t.verdicts, rs, at)
    requires forall i | 0 <= i < |rs| - 1 :: AnsweredRight(t, rs, answers, at, i)
    requires AnsweredRight(t, rs, answers, at, |rs| - 1)
    requires t.started <==> StartBefore(t.verdicts, rs, |rs|)
    requires t.pty <==> PtyBefore(t.verdicts, rs, |rs|)
    ensures ForwardsExactly(t, rs, answers, at)
  {
  }

  lemma StepSends(s: Proxy, t: Proxy, rs: seq<Request>, answers: nat -> Answer, at: seq<nat>)
    requires rs != [] && |s.verdicts| == |rs| - 1 && !s.broken && t == ProxyStep(s, |rs| - 1, Last(rs), answers(|rs| - 1))
    requires SentFrom(s.sent, s.verdicts, rs, at) && !t.broken
    ensures var n := |rs| - 1;
      SentFrom(t.sent, t.verdicts, rs, if ValidProxyRequest(rs[n], s.started, s.pty) then at + [n as nat] else at)
  {
    var n := |rs| - 1;
    var v := Last(t.verdicts);
    assert t.verdicts == s.verdicts + [v];
    assert t.sent == if ValidProxyRequest(rs[n], s.started, s.pty) then s.sent + [Sent(rs[n], v)] else s.sent;
    SentFromOneMore(s, v, rs, at);
  }

  lemma EarlierAreAnsweredRight(s: Proxy, t: Proxy, rs: seq<Request>, answers: nat -> Answer, at: seq<nat>, more: seq<nat>)
    requires |s.verdicts| < |rs| && forall i | 0 <= i < |s.verdicts| :: AnsweredRight(s, rs, answers, at, i)
    requires |t.verdicts| == |s.verdicts| + 1 && s.verdicts <= t.verdicts && (more == at || more == at + [|s.verdicts|])
    ensures forall i | 0 <= i < |s.verdicts| :: AnsweredRight(t, rs, answers, more, i)
  {
    forall i | 0 <= i < |s.verdicts| ensures AnsweredRight(t, rs, answers, more, i) {
      AnsweredRightLater(s, t, rs, answers, at, more, i);
    }
  }

  /** The last request: how it is answered, and what can follow. */
  lemma StepIsAnsweredRight(s: Proxy, t: Proxy, rs: seq<Request>, answers: nat -> Answer, at: seq<nat>)
    requires rs != [] && |s.verdicts| == |rs| - 1 && !s.broken && t == ProxyStep(s, |rs| - 1, Last(rs), answers(|rs| - 1))
    requires SentFrom(s.sent, s.verdicts, rs, at) && !t.broken
    requires s.started <==> StartBefore(s.verdicts, rs, |s.verdicts|)
    requires s.pty <==> PtyBefore(s.verdicts, rs, |s.verdicts|)
    ensures var n := |rs| - 1;
      AnsweredRight(t, rs, answers, if ValidProxyRequest(rs[n], s.started, s.pty) then at + [n as nat] else at, n)
    ensures t.started <==> StartBefore(t.verdicts, rs, |rs|)
    ensures t.pty <==> PtyBefore(t.verdicts, rs, |rs|)
  {
    var n := |rs| - 1;
    ValidIsAdmitted(rs[n], s.started, s.pty);
    BeforeOneMore(s.verdicts, Last(t.verdicts), rs);
    assert t.verdicts == s.verdicts + [Last(t.verdicts)];
    assert n !in at;
  }

  // ----- What the client is told -----

  /** The positions of the requests that want a reply. */
  function Wanting(rs: seq<Request>): seq<nat> {
    if rs == [] then []
    else Wanting(rs[..|rs| - 1]) + (if Last(rs).wantReply then [(|rs| - 1) as nat] else [])
  }

  function Positions(replies: seq<Reply>): seq<nat> {
    if replies == [] then [] else Positions(replies[..|replies| - 1]) + [Last(replies).i]
  }

  lemma PositionsOneMore(replies: seq<Reply>, r: Reply)
    ensures Positions(replies + [r]) == Positions(replies) + [r.i]
  {
    assert (replies + [r])[..|replies|] == replies;
  }

  lemma PrefixGrows(a: seq<nat>, b: seq<nat>, c: seq<nat>)
    requires a <= b
    ensures a <= b + c
  {
  }

  lemma OneStepReplies(s: Proxy, i: nat, r: Request, a: Answer)
    ensures var t := ProxyStep(s, i, r, a);
      if t.broken then t.replies == s.replies && t.verdicts == s.verdicts
      else !s.broken && exists v :: t.verdicts == s.verdicts + [v] && t.replies == s.replies + if r.wantReply then [Reply(i, v)] else []
  {
    var t := ProxyStep(s, i, r, a);
    if !t.broken {
      var v := Last(t.verdicts);
      assert t.verdicts == s.verdicts + [v] && t.replies == s.replies + if r.wantReply then [Reply(i, v)] else [];
    }
  }

  /**
   Want-reply requests are answered one each and in order, all of them unless the transport to the backend breaks,
   and the answer is no exactly when the request had no effect.
   */
  lemma {:induction false} RepliesAreInOrder(rs: seq<Request>, answers: nat -> Answer)
    ensures var s := ProxyRun(rs, answers);
      && Positions(s.replies) <= Wanting(rs)
      && (!s.broken ==> Positions(s.replies) == Wanting(rs) && |s.verdicts| == |rs|)
      && |s.verdicts| <= |rs|
      && forall r <- s.replies :: r.i < |s.verdicts| && r.ok == s.verdicts[r.i]
  {
    if rs != [] {
      var n := |rs| - 1;
      RepliesAreInOrder(rs[..n], answers);
      var s := ProxyRun(rs[..n], answers);
      OneStepReplies(s, n, Last(rs), answers(n));
      var t := ProxyRun(rs, answers);
      assert Wanting(rs) == Wanting(rs[..n]) + (if Last(rs).wantReply then [n as nat] else []);
      PrefixGrows(Positions(s.replies), Wanting(rs[..n]), if Last(rs).wantReply then [n as nat] else []);
      if !t.broken && Last(rs).wantReply {
        PositionsOneMore(s.replies, Reply(n, Last(t.verdicts)));
      } else {
        assert t.replies == s.replies;
      }
    }
  }

  // ----- Both backends -----

  function AlwaysOk(i: nat): Answer {
    Answer(true, false)
  }

  /**
   On every sequence of requests the Kubernetes loop and the proxy over an always-accepting backend give the same
   verdicts, but for the window-change and signal requests that only the proxy forwards.
   */
  lemma {:induction false} BackendsAgree(rs: seq<Request>)
    ensures var l, p := LocalRun(rs), ProxyRun(rs, AlwaysOk);
      && !p.broken && l.tty == p.pty && l.started.Some? == p.started
      && |l.verdicts| == |p.verdicts| == |rs|
      && forall i | 0 <= i < |rs| ::
           l.verdicts[i] == (p.verdicts[i] && !rs[i].kind.WindowChange? && !rs[i].kind.Signal?)
  {
    if rs != [] {
      var n := |rs| - 1;
      BackendsAgree(rs[..n]);
    }
  }
}
