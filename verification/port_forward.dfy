/** Forward over the Kubernetes API (internal/k8s/portfwd.go): nested selects over the results of its goroutines. */
module PortForward {
  import opened Base

  type Error = string

  /**
   A value in one of the channels, or the end of the context: Remote and Errors are how the output copy and the
   error stream ended, Local is an error of the input copy, which sends nothing when it succeeds.
   */
  datatype Arrival = Context(err: Error) | Local(err: Error) | Remote(end: Option<Error>) | Errors(end: Option<Error>)

  /** The order in which the selects receive. Each channel delivers once. */
  predicate WellFormed(xs: seq<Arrival>) {
    forall i, j | 0 <= i < j < |xs| :: !(xs[i].Remote? && xs[j].Remote?) && !(xs[i].Errors? && xs[j].Errors?)
  }

  /** No cancellation, and no local error before the output has ended. */
  predicate Quiet(xs: seq<Arrival>) {
    && (forall x <- xs :: !x.Context?)
    && forall i, j | 0 <= i < j < |xs| :: !(xs[i].Local? && xs[j].Remote?)
  }

  /** What the two ends amount to, whichever came first. */
  function Joined(remote: Option<Error>, errors: Option<Error>): Option<Error> {
    if errors.Some? then errors else remote
  }

  /** What Forward returns once the arrivals allow it; None while it waits. */
  function Returned(xs: seq<Arrival>): Option<Option<Error>> {
    if xs == [] then None else
    match xs[0]
    case Context(err) => Some(Some(err))
    case Local(err) => Some(Some(err))
    case Remote(end) => AfterRemote(xs[1..], end)
    case Errors(end) => if end.Some? then Some(end) else AfterErrors(xs[1..])
  }

  function AfterRemote(xs: seq<Arrival>, remote: Option<Error>): Option<Option<Error>> {
    if xs == [] then None else
    match xs[0]
    case Context(err) => Some(Some(err))
    case Errors(end) => Some(Joined(remote, end))
    case _ => AfterRemote(xs[1..], remote)
  }

  function AfterErrors(xs: seq<Arrival>): Option<Option<Error>> {
    if xs == [] then None else
    match xs[0]
    case Context(err) => Some(Some(err))
    case Local(err) => Some(Some(err))
    case Remote(end) => Some(end)
    case _ => AfterErrors(xs[1..])
  }

  method Forward(xs: seq<Arrival>) returns (r: Option<Option<Error>>)
    ensures r == Returned(xs)
  {
    if xs == [] {
      return None;
    }
    var i := 1;
    match xs[0] {
      case Context(err) => return Some(Some(err));
      case Local(err) => return Some(Some(err));
      case Remote(end) =>
        while i < |xs|
          invariant 1 <= i <= |xs| && Returned(xs) == AfterRemote(xs[i..], end)
        {
          match xs[i] {
            case Context(err) => return Some(Some(err));
            case Errors(errors) => return Some(if errors.Some? then errors else end);
            case _ =>
          }
          i := i + 1;
        }
        return None;
      case Errors(end) =>
        if end.Some? {
          return Some(end);
        }
        while i < |xs|
          invariant 1 <= i <= |xs| && Returned(xs) == AfterErrors(xs[i..])
        {
          match xs[i] {
            case Context(err) => return Some(Some(err));
            case Local(err) => return Some(Some(err));
            case Remote(remote) => return Some(remote);
            case _ =>
          }
          i := i + 1;
        }
        return None;
    }
  }

  lemma {:induction false} AfterRemoteJoins(xs: seq<Arrival>, remote: Option<Error>, errors: Option<Error>)
    requires Quiet(xs) && WellFormed(xs) && Errors(errors) in xs
    ensures AfterRemote(xs, remote) == Some(Joined(remote, errors))
  {
    if xs[0] != Errors(errors) {
      var j :| 0 < j < |xs| && xs[j] == Errors(errors);
      assert xs[1..][j - 1] == Errors(errors);
      AfterRemoteJoins(xs[1..], remote, errors);
    }
  }

  lemma {:induction false} AfterErrorsJoins(xs: seq<Arrival>, remote: Option<Error>)
    requires Quiet(xs) && WellFormed(xs) && Remote(remote) in xs
    ensures AfterErrors(xs) == Some(remote)
  {
    if xs[0] != Remote(remote) {
      var j :| 0 < j < |xs| && xs[j] == Remote(remote);
      assert xs[1..][j - 1] == Remote(remote);
      AfterErrorsJoins(xs[1..], remote);
    }
  }

  /**
   Absent cancellation, and local errors before the output has ended, the result depends on the two ends only, not on
   the order of arrival; a later local error changes nothing.
   */
  lemma {:induction false} Confluence(xs: seq<Arrival>, remote: Option<Error>, errors: Option<Error>)
    requires Quiet(xs) && WellFormed(xs) && Remote(remote) in xs && Errors(errors) in xs
    ensures Returned(xs) == Some(Joined(remote, errors))
    ensures Returned(xs) == Some(None) <==> remote == None && errors == None
  {
    var i :| 0 <= i < |xs| && xs[i] == Remote(remote);
    var j :| 0 <= j < |xs| && xs[j] == Errors(errors);
    if xs[0].Remote? {
      assert xs[1..][j - 1] == Errors(errors);
      AfterRemoteJoins(xs[1..], remote, errors);
    } else {
      assert xs[1..][i - 1] == Remote(remote);
      AfterErrorsJoins(xs[1..], remote);
    }
  }

  lemma {:induction false} AfterRemoteNil(xs: seq<Arrival>, remote: Option<Error>)
    requires AfterRemote(xs, remote) == Some(None)
    ensures remote == None && Errors(None) in xs
  {
    if xs[0] != Errors(None) {
      AfterRemoteNil(xs[1..], remote);
    }
  }

  lemma {:induction false} AfterErrorsNil(xs: seq<Arrival>)
    requires AfterErrors(xs) == Some(None)
    ensures Remote(None) in xs
  {
    if xs[0] != Remote(None) {
      AfterErrorsNil(xs[1..]);
    }
  }

  /** Whatever arrives, in whatever order: nil means both the output and the error stream ended without an error. */
  lemma {:induction false} NilMeansBothEnded(xs: seq<Arrival>)
    requires Returned(xs) == Some(None)
    ensures Remote(None) in xs && Errors(None) in xs
  {
    if xs[0].Remote? {
      AfterRemoteNil(xs[1..], xs[0].end);
    } else {
      AfterErrorsNil(xs[1..]);
    }
  }

  // ----- What each arrival does -----

  lemma {:induction false} AfterRemoteOneMore(xs: seq<Arrival>, remote: Option<Error>, x: Arrival)
    ensures AfterRemote(xs + [x], remote) ==
      if AfterRemote(xs, remote).Some? then AfterRemote(xs, remote) else AfterRemote([x], remote)
  {
    if xs == [] {
      assert xs + [x] == [x];
    } else {
      assert (xs + [x])[1..] == xs[1..] + [x];
      AfterRemoteOneMore(xs[1..], remote, x);
    }
  }

  lemma {:induction false} AfterErrorsOneMore(xs: seq<Arrival>, x: Arrival)
    ensures AfterErrors(xs + [x]) == if AfterErrors(xs).Some? then AfterErrors(xs) else AfterErrors([x])
  {
    if xs == [] {
      assert xs + [x] == [x];
    } else {
      assert (xs + [x])[1..] == xs[1..] + [x];
      AfterErrorsOneMore(xs[1..], x);
    }
  }

  /** The select that waits when xs has arrived: the first, the one after the output, or the one after the error stream. */
  predicate OutputFirst(xs: seq<Arrival>) {
    xs != [] && xs[0].Remote?
  }

  lemma ReturnedOneMore(xs: seq<Arrival>, x: Arrival)
    ensures Returned(xs).Some? ==> Returned(xs + [x]) == Returned(xs)
    ensures Returned(xs).None? && xs != [] ==>
      Returned(xs + [x]) == if OutputFirst(xs) then AfterRemote([x], xs[0].end) else AfterErrors([x])
    ensures Returned(xs).None? && xs != [] ==> OutputFirst(xs) || xs[0] == Errors(None)
  {
    if xs == [] {
      assert xs + [x] == [x];
    } else {
      assert (xs + [x])[1..] == xs[1..] + [x];
      if xs[0].Remote? {
        AfterRemoteOneMore(xs[1..], xs[0].end, x);
      } else if xs[0].Errors? {
        AfterErrorsOneMore(xs[1..], x);
      }
    }
  }

  /** While Forward waits, whatever has arrived, the end of the context makes it return the context's error. */
  lemma ContextIsReturned(xs: seq<Arrival>, err: Error)
    requires Returned(xs).None?
    ensures Returned(xs + [Context(err)]) == Some(Some(err))
  {
    ReturnedOneMore(xs, Context(err));
    assert xs + [Context(err)] == [Context(err)] || xs != [];
  }

  /** ... an error of the input copy makes it return that error exactly if the output did not come first, ... */
  lemma LocalErrorIsReturned(xs: seq<Arrival>, err: Error)
    requires Returned(xs).None?
    ensures Returned(xs + [Local(err)]) == if OutputFirst(xs) then None else Some(Some(err))
  {
    ReturnedOneMore(xs, Local(err));
    assert xs + [Local(err)] == [Local(err)] || xs != [];
  }

  /** ... the end of the error stream makes it return unless it is clean and the output has yet to end, ... */
  lemma ErrorStreamIsReturned(xs: seq<Arrival>, end: Option<Error>)
    requires Returned(xs).None? && WellFormed(xs + [Errors(end)])
    ensures Returned(xs + [Errors(end)]) ==
      if OutputFirst(xs) then Some(Joined(xs[0].end, end)) else if end.Some? then Some(end) else None
  {
    ReturnedOneMore(xs, Errors(end));
    assert xs + [Errors(end)] == [Errors(end)] || xs != [];
    var ys := xs + [Errors(end)];
    assert ys[|xs|].Errors? && (xs != [] ==> ys[0] == xs[0]);
  }

  /** ... and the end of the output makes it return exactly if the error stream came first. */
  lemma OutputIsReturned(xs: seq<Arrival>, end: Option<Error>)
    requires Returned(xs).None? && WellFormed(xs + [Remote(end)])
    ensures Returned(xs + [Remote(end)]) == if xs == [] then None else Some(end)
  {
    ReturnedOneMore(xs, Remote(end));
    assert xs + [Remote(end)] == [Remote(end)] || xs != [];
    var ys := xs + [Remote(end)];
    assert ys[|xs|].Remote? && (xs != [] ==> ys[0] == xs[0]);
  }
}
