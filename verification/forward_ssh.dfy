/**
 forwardSSH (internal/k8s/ssh.go): two copying goroutines, the watcher of the backend's CLOSE and the select loop,
 with the client, the backend and the context as an adversary that may step at any time.
 */
module ForwardSsh {
  import opened Base

  type Byte = bv8

  datatype CopyPC = Copying | Marking | Closing | Sending | Finished

  /**
   One io.Copy goroutine. source is everything that has arrived from its peer and ended whether that is all; taken
   bytes have been read and sink is what has been written. failed is the error io.Copy returned, result the value
   in the goroutine's channel.
   */
  datatype Copy = Copy(source: seq<Byte>, ended: bool, taken: nat, sink: seq<Byte>, pc: CopyPC, failed: bool,
                       closedWrite: bool, result: Option<bool>)

  const NEW_COPY := Copy([], false, 0, [], Copying, false, false, None)

  datatype Outcome = Nil | InputError | OutputError | Aborted | DrainExpired

  /** The loop's channel variables, where false is nil; timers counts time.NewTimer calls. */
  datatype Loop = Loop(inputDone: bool, outputDone: bool, remoteClosed: bool, watchContext: bool, timers: nat, expired: bool,
                       outcome: Option<Outcome>)

  /**
   How the backend channel's requests have ended: by its CLOSE, or with the transport under it; cut says that bytes the
   backend had sent were lost with it.
   */
  datatype Requests = Open | Closed | Lost(cut: bool)

  /**
   sent is what the backend has sent, of which output.source has arrived. cancelledAfterEOF is the model's own: whether
   the client had been sent a clean output EOF when the context was cancelled.
   */
  datatype State = State(input: Copy, output: Copy, outputEOF: bool, sent: seq<Byte>, requests: Requests, closeSeen: bool,
                         cancelled: bool, cancelledAfterEOF: bool, loop: Loop)

  const INIT := State(NEW_COPY, NEW_COPY, false, [], Open, false, false, false, Loop(true, true, true, true, 0, false, None))

  datatype Step =
    // the adversary
    | ClientSends(bytes: seq<Byte>) | ClientEOF
    | BackendSends(bytes: seq<Byte>) | Arrive(bytes: seq<Byte>) | BackendEOF | BackendCloses | TransportLost
    | Cancel | TimerFires
    // the copying goroutines
    | Read(input: bool, n: nat) | Write(input: bool, n: nat) | Fail(input: bool) | EndOfStream(input: bool)
    | MarkEOF | CloseWrite(input: bool) | SendResult(input: bool)
    // the watcher of the backend's requests
    | SignalClose
    // the select loop
    | TakeInput | TakeOutput | TakeClose | TakeCancel | TakeTimer | LeaveLoop

  /** Whose state a step changes. */
  datatype Party = InputCopy | OutputCopy | SelectLoop | World

  function Who(x: Step): Party {
    match x
    case ClientSends(_) => InputCopy
    case ClientEOF => InputCopy
    case Arrive(_) => OutputCopy
    case BackendEOF => OutputCopy
    case BackendCloses => OutputCopy
    case TransportLost => OutputCopy
    case BackendSends(_) => World
    case MarkEOF => OutputCopy
    case Read(i, _) => if i then InputCopy else OutputCopy
    case Write(i, _) => if i then InputCopy else OutputCopy
    case Fail(i) => if i then InputCopy else OutputCopy
    case EndOfStream(i) => if i then InputCopy else OutputCopy
    case CloseWrite(i) => if i then InputCopy else OutputCopy
    case SendResult(i) => if i then InputCopy else OutputCopy
    case Cancel => World
    case TimerFires => World
    case SignalClose => World
    case _ => SelectLoop
  }

  predicate Looping(l: Loop) {
    l.inputDone || l.outputDone || l.remoteClosed
  }

  predicate CopyReady(c: Copy, x: Step) {
    match x
    case ClientSends(_) => !c.ended
    case Arrive(_) => !c.ended
    case Read(_, n) => c.pc.Copying? && c.taken == |c.sink| && c.taken + n <= |c.source|
    case Write(_, n) => c.pc.Copying? && |c.sink| + n <= c.taken <= |c.source|
    case Fail(_) => c.pc.Copying?
    case EndOfStream(_) => c.pc.Copying? && c.taken == |c.sink| == |c.source| && c.ended
    case MarkEOF => c.pc.Marking?
    case CloseWrite(_) => c.pc.Closing?
    case SendResult(_) => c.pc.Sending?
    case _ => true
  }

  predicate LoopReady(s: State, x: Step) {
    && s.loop.outcome.None?
    && (x.LeaveLoop? <==> !Looping(s.loop))
    && match x
       case TakeInput => s.loop.inputDone && s.input.result.Some?
       case TakeOutput => s.loop.outputDone && s.output.result.Some?
       case TakeClose => s.loop.remoteClosed && s.closeSeen
       case TakeCancel => s.loop.watchContext && s.cancelled
       case TakeTimer => s.loop.timers > 0 && s.loop.expired
       case _ => true
  }

  predicate WorldReady(s: State, x: Step) {
    match x
    case Cancel => !s.cancelled
    case TimerFires => s.loop.timers > 0
    case BackendSends(_) => !s.output.ended
    case _ => !s.requests.Open?
  }

  /** The backend's bytes, EOF and CLOSE arrive in order, until the transport is lost. */
  predicate WireReady(s: State, x: Step) {
    match x
    case Arrive(bytes) => s.output.source + bytes <= s.sent
    case BackendEOF => s.output.source == s.sent
    case BackendCloses => s.output.source == s.sent && s.requests.Open?
    case TransportLost => s.requests.Open?
    case _ => true
  }

  predicate Enabled(s: State, x: Step) {
    match Who(x)
    case InputCopy => CopyReady(s.input, x)
    case OutputCopy => CopyReady(s.output, x) && WireReady(s, x)
    case SelectLoop => LoopReady(s, x)
    case World => WorldReady(s, x)
  }

  /** The statements of one copying goroutine; the output side marks its EOF before it half-closes the client. */
  function CopyAfter(c: Copy, x: Step): Copy
    requires x.Write? ==> |c.sink| + x.n <= |c.source|
  {
    match x
    case ClientSends(bytes) => c.(source := c.source + bytes)
    case Arrive(bytes) => c.(source := c.source + bytes)
    case ClientEOF => c.(ended := true)
    case BackendEOF => c.(ended := true)
    case BackendCloses => c.(ended := true)
    case TransportLost => c.(ended := true)
    case Read(_, n) => c.(taken := c.taken + n)
    case Write(_, n) => c.(sink := c.source[..|c.sink| + n])
    case Fail(i) => c.(failed := true, pc := Closing)
    case EndOfStream(i) => c.(pc := if i then Closing else Marking)
    case MarkEOF => c.(pc := Closing)
    case CloseWrite(_) => c.(closedWrite := true, pc := Sending)
    case SendResult(_) => c.(result := Some(c.failed), pc := Finished)
    case _ => c
  }

  predicate Sane(c: Copy) {
    c.taken <= |c.source| && |c.sink| <= c.taken && c.sink == c.source[..|c.sink|]
  }

  function LoopAfter(s: State, x: Step): Loop
    requires LoopReady(s, x)
  {
    var l := s.loop;
    match x
    case TakeInput => if s.input.result.value then l.(outcome := Some(InputError)) else l.(inputDone := false)
    case TakeOutput => if s.output.result.value then l.(outcome := Some(OutputError)) else l.(outputDone := false)
    case TakeClose => l.(remoteClosed := false)
    case TakeCancel =>
      if !s.outputEOF then l.(outcome := Some(Aborted)) else l.(watchContext := false, timers := l.timers + 1)
    case TakeTimer => l.(outcome := Some(DrainExpired))
    case _ => l.(outcome := Some(Nil))
  }

  function WorldAfter(s: State, x: Step): State {
    match x
    case Cancel => s.(cancelled := true, cancelledAfterEOF := s.output.closedWrite && !s.output.failed)
    case TimerFires => s.(loop := s.loop.(expired := true))
    case BackendSends(bytes) => s.(sent := s.sent + bytes)
    case _ => s.(closeSeen := true)
  }

  function RequestsAfter(s: State, x: Step): Requests {
    match x
    case BackendCloses => Closed
    case TransportLost => Lost(s.output.source != s.sent)
    case _ => s.requests
  }

  function Apply(s: State, x: Step): State
    requires Enabled(s, x)
  {
    match Who(x)
    case InputCopy => s.(input := CopyAfter(s.input, x))
    case OutputCopy =>
      s.(output := CopyAfter(s.output, x), outputEOF := s.outputEOF || x.MarkEOF?, requests := RequestsAfter(s, x))
    case SelectLoop => s.(loop := LoopAfter(s, x))
    case World => WorldAfter(s, x)
  }

  // ----- Invariant -----

  /** A copy that ended cleanly has passed on everything its peer sent, and has said so. */
  predicate CopyFits(c: Copy) {
    && Sane(c)
    && (!c.pc.Copying? && !c.failed ==> c.ended && c.sink == c.source)
    && (c.closedWrite <==> c.pc.Sending? || c.pc.Finished?)
    && (c.result == if c.pc.Finished? then Some(c.failed) else None)
    && (c.pc.Copying? || c.pc.Marking? ==> !c.failed)
  }

  /** outputEOF is the output copy's clean end, and is set before the client is half-closed. */
  predicate EOFFits(s: State) {
    && (s.outputEOF <==> !s.output.failed && !s.output.pc.Copying? && !s.output.pc.Marking?)
    && (s.cancelledAfterEOF ==> s.outputEOF)
  }

  /** What has arrived is what was sent, unless the transport was lost with something on the way. */
  predicate WireFits(s: State) {
    && s.output.source <= s.sent
    && (s.closeSeen ==> !s.requests.Open?)
    && (!s.requests.Open? ==> s.output.ended)
    && (s.output.ended ==> (s.output.source == s.sent <==> s.requests != Lost(true)))
  }

  predicate LoopFits(s: State) {
    var l := s.loop;
    && (!l.inputDone ==> s.input.result == Some(false))
    && (!l.outputDone ==> s.output.result == Some(false))
    && (!l.remoteClosed ==> s.closeSeen)
    && l.timers == (if l.watchContext then 0 else 1)
    && (!l.watchContext ==> s.cancelled && s.outputEOF)
    && (l.expired ==> l.timers == 1)
    && (match l.outcome
        case None => true
        case Some(Nil) => !Looping(l)
        case Some(InputError) => s.input.result == Some(true)
        case Some(OutputError) => s.output.result == Some(true)
        case Some(Aborted) => s.cancelled && l.watchContext && !s.cancelledAfterEOF
        case Some(DrainExpired) => l.expired)
  }

  predicate Invariant(s: State) {
    CopyFits(s.input) && !s.input.pc.Marking? && CopyFits(s.output) && EOFFits(s) && WireFits(s) && LoopFits(s)
  }

  lemma CopyStepFits(c: Copy, x: Step)
    requires CopyFits(c) && CopyReady(c, x)
    ensures var c' := CopyAfter(c, x);
      && CopyFits(c')
      && (c.result.Some? ==> c'.result == c.result)
      && (c.failed ==> c'.failed) && (c.ended ==> c'.ended)
  {
  }

  lemma InputStepFits(s: State, x: Step)
    requires Invariant(s) && Who(x).InputCopy? && Enabled(s, x)
    ensures Invariant(Apply(s, x))
  {
    CopyStepFits(s.input, x);
  }

  lemma OutputStepFits(s: State, x: Step)
    requires Invariant(s) && Who(x).OutputCopy? && Enabled(s, x)
    ensures Invariant(Apply(s, x))
  {
    CopyStepFits(s.output, x);
  }

  lemma LoopStepFits(s: State, x: Step)
    requires Invariant(s) && Who(x).SelectLoop? && Enabled(s, x)
    ensures Invariant(Apply(s, x))
  {
  }

  lemma StepKeepsInvariant(s: State, x: Step)
    requires Invariant(s) && Enabled(s, x)
    ensures Invariant(Apply(s, x))
  {
    match Who(x) {
      case InputCopy => InputStepFits(s, x);
      case OutputCopy => OutputStepFits(s, x);
      case SelectLoop => LoopStepFits(s, x);
      case World =>
    }
  }

  /** Run a schedule of steps; a step that is not enabled when its turn comes is skipped. */
  function Run(s: State, xs: seq<Step>): State {
    if xs == [] then s else
      var t := Run(s, xs[..|xs| - 1]);
      if Enabled(t, Last(xs)) then Apply(t, Last(xs)) else t
  }

  lemma {:induction false} RunKeepsInvariant(xs: seq<Step>)
    ensures Invariant(Run(INIT, xs))
  {
    if xs != [] {
      RunKeepsInvariant(xs[..|xs| - 1]);
      var t := Run(INIT, xs[..|xs| - 1]);
      if Enabled(t, Last(xs)) {
        StepKeepsInvariant(t, Last(xs));
      }
    }
  }

  lemma ReachableIsInvariant(s: State)
    requires Reachable(s)
    ensures Invariant(s)
  {
    var xs :| s == Run(INIT, xs);
    RunKeepsInvariant(xs);
  }

  /** Some interleaving of the two copies, the watcher, the loop and the adversary leads to s. */
  ghost predicate Reachable(s: State) {
    exists xs :: s == Run(INIT, xs)
  }

  // ----- Results -----

  /**
   In every interleaving: nil means everything the client sent until its EOF was written to the backend, whose write side
   was closed after it, everything that arrived from the backend is with the client, and the end of the backend's
   requests was seen. The client has all the backend sent exactly unless the transport was lost with bytes on the
   way; if it was not lost, that end was the backend's CLOSE.
   */
  lemma NilMeansComplete(s: State)
    requires Reachable(s) && s.loop.outcome == Some(Nil)
    ensures s.input.ended && s.input.sink == s.input.source && s.input.closedWrite
    ensures s.output.ended && s.output.sink == s.output.source && s.output.closedWrite && s.outputEOF
    ensures s.closeSeen && (s.requests.Closed? || s.requests.Lost?)
    ensures s.output.sink == s.sent <==> s.requests != Lost(true)
  {
    ReachableIsInvariant(s);
  }

  /**
   In every interleaving: a client that was sent the output's EOF before the context was cancelled is never cut off at
   once. Then only a failed input copy or the one five-second timer gives up, and the output has been copied.
   */
  lemma ReactionToEOFDrains(s: State)
    requires Reachable(s) && s.cancelledAfterEOF && s.loop.outcome.Some?
    ensures s.loop.outcome.value in {Nil, InputError, DrainExpired}
    ensures s.output.sink == s.output.source && s.output.ended
    ensures s.loop.outcome == Some(InputError) ==> s.input.failed
    ensures s.loop.outcome == Some(DrainExpired) ==> s.loop.timers == 1 && s.loop.expired
  {
    ReachableIsInvariant(s);
  }

  /** In every interleaving: whoever has been sent the output's EOF can cancel without causing an immediate abort. */
  lemma EOFIsMarkedBeforeItIsSent(s: State)
    requires Reachable(s) && s.output.closedWrite && !s.output.failed
    ensures s.outputEOF
    ensures Enabled(s, TakeCancel) ==> Apply(s, TakeCancel).loop.outcome.None? && Apply(s, TakeCancel).loop.timers == 1
  {
    ReachableIsInvariant(s);
  }

  /** In every interleaving: the timer is armed at most once, by a cancellation after output EOF; no abort follows. */
  lemma DrainGivesUpOnlyOnErrorOrTimer(s: State)
    requires Reachable(s)
    ensures s.loop.timers <= 1
    ensures s.loop.timers == 1 ==>
      && s.cancelled && s.outputEOF
      && (s.loop.outcome.Some? ==> s.loop.outcome.value in {Nil, InputError, DrainExpired})
  {
    ReachableIsInvariant(s);
  }

  /** An error is only ever returned for its own reason; an abort needs a cancellation before the client saw EOF. */
  lemma OutcomesHaveCauses(s: State)
    requires Reachable(s)
    ensures match s.loop.outcome
      case Some(InputError) => s.input.failed
      case Some(OutputError) => s.output.failed && !s.outputEOF
      case Some(Aborted) => s.cancelled && s.loop.timers == 0 && !s.cancelledAfterEOF
      case Some(DrainExpired) => s.loop.expired && s.cancelled && s.outputEOF
      case _ => true
  {
    ReachableIsInvariant(s);
  }

  function Bit(b: bool): nat {
    if b then 1 else 0
  }

  /** The channels of the select that are not nil yet, the timer's aside. */
  function Channels(l: Loop): nat {
    Bit(l.inputDone) + Bit(l.outputDone) + Bit(l.remoteClosed) + Bit(l.watchContext)
  }

  lemma WorldKeepsLoop(s: State, x: Step)
    ensures WorldAfter(s, x).loop == s.loop.(expired := WorldAfter(s, x).loop.expired)
  {
  }

  lemma OthersKeepLoop(s: State, x: Step)
    requires Enabled(s, x) && !Who(x).SelectLoop?
    ensures Apply(s, x).loop == s.loop.(expired := Apply(s, x).loop.expired)
  {
    WorldKeepsLoop(s, x);
    assert Who(x).World? ==> Apply(s, x) == WorldAfter(s, x);
    assert !Who(x).World? ==> Apply(s, x).loop == s.loop;
  }

  /** Each iteration either returns or nils exactly one of the four channels; nothing else touches them. */
  lemma IterationsEnd(s: State, x: Step)
    requires Invariant(s) && Enabled(s, x)
    ensures var t := Apply(s, x);
      Channels(t.loop) == Channels(s.loop) - if Who(x).SelectLoop? && t.loop.outcome.None? then 1 else 0
  {
    if Who(x).SelectLoop? {
      LoopIterationEnds(s, x);
    } else {
      OthersKeepLoop(s, x);
    }
  }

  lemma LoopIterationEnds(s: State, x: Step)
    requires LoopReady(s, x) && Who(x).SelectLoop?
    ensures var l := LoopAfter(s, x); Channels(l) == Channels(s.loop) - if l.outcome.None? then 1 else 0
  {
  }

  /** What a copying goroutine does next, given that its peer has ended. */
  function NextCopyStep(c: Copy, input: bool): Step {
    match c.pc
    case Copying =>
      if |c.sink| < c.taken then Write(input, c.taken - |c.sink|)
      else if c.taken < |c.source| then Read(input, |c.source| - c.taken)
      else EndOfStream(input)
    case Marking => MarkEOF
    case Closing => CloseWrite(input)
    case _ => SendResult(input)
  }

  /** The steps that a copy with all its input has left, at most. */
  function CopyWork(c: Copy): int {
    |c.source| - c.taken + |c.source| - |c.sink| + match c.pc
    case Copying => 4
    case Marking => 3
    case Closing => 2
    case Sending => 1
    case Finished => 0
  }

  /** The steps that are left to forwardSSH when client and backend have said their last, at most. */
  function Work(s: State): int {
    CopyWork(s.input) + CopyWork(s.output) + Bit(!s.closeSeen) + Channels(s.loop) + Bit(s.loop.outcome.None?)
  }

  lemma CopyStepsAreWork(c: Copy, x: Step)
    requires CopyFits(c) && c.ended && CopyReady(c, x) && !x.ClientSends? && !x.Arrive?
    ensures 0 <= CopyWork(CopyAfter(c, x)) <= CopyWork(c)
  {
  }

  predicate LastSaid(s: State) {
    s.input.ended && !s.requests.Open?
  }

  lemma CopyStepIsWork(s: State, x: Step)
    requires Invariant(s) && LastSaid(s) && Enabled(s, x) && (Who(x).InputCopy? || Who(x).OutputCopy?)
    ensures var c := if Who(x).InputCopy? then s.input else s.output;
      && Work(Apply(s, x)) - Work(s) == CopyWork(CopyAfter(c, x)) - CopyWork(c)
      && CopyWork(CopyAfter(c, x)) <= CopyWork(c)
  {
    CopyStepsAreWork(if Who(x).InputCopy? then s.input else s.output, x);
  }

  lemma LoopStepIsWork(s: State, x: Step)
    requires LoopReady(s, x) && Who(x).SelectLoop?
    ensures Work(Apply(s, x)) == Work(s) - 1
  {
    LoopIterationEnds(s, x);
  }

  /** From then on nothing that anybody does adds to what is left. */
  lemma NothingAddsWork(s: State, x: Step)
    requires Reachable(s) && LastSaid(s) && Enabled(s, x)
    ensures Work(Apply(s, x)) <= Work(s)
  {
    ReachableIsInvariant(s);
    if Who(x).World? {
      assert WorldAfter(s, x).loop == s.loop.(expired := WorldAfter(s, x).loop.expired);
    } else if Who(x).SelectLoop? {
      LoopStepIsWork(s, x);
    } else {
      CopyStepIsWork(s, x);
    }
  }

  lemma CopyMoves(c: Copy, input: bool)
    requires CopyFits(c) && c.ended && !c.pc.Finished? && (input ==> !c.pc.Marking?)
    ensures var x := NextCopyStep(c, input);
      && CopyReady(c, x) && CopyWork(CopyAfter(c, x)) < CopyWork(c) && SameStream(c, CopyAfter(c, x))
      && Who(x) == if input then InputCopy else OutputCopy
  {
  }

  predicate SameStream(c: Copy, d: Copy) {
    d.source == c.source && d.ended == c.ended && d.failed == c.failed
  }

  /** What is said stays said: client, backend and context have not moved, and no copy has failed meanwhile. */
  predicate SameWorld(s: State, t: State) {
    && SameStream(s.input, t.input) && SameStream(s.output, t.output)
    && t.sent == s.sent && t.requests == s.requests && t.cancelled == s.cancelled
  }

  /** Some step that brings the function's return nearer. */
  function NextMove(s: State): Step {
    if !s.input.pc.Finished? then NextCopyStep(s.input, true)
    else if !s.output.pc.Finished? then NextCopyStep(s.output, false)
    else if !s.closeSeen then SignalClose
    else if s.loop.inputDone then TakeInput
    else if s.loop.outputDone then TakeOutput
    else if s.loop.remoteClosed then TakeClose
    else LeaveLoop
  }

  lemma CopyMoveIsNearer(s: State, input: bool)
    requires Invariant(s) && LastSaid(s) && !(if input then s.input else s.output).pc.Finished?
    ensures var x := NextCopyStep(if input then s.input else s.output, input);
      Enabled(s, x) && Work(Apply(s, x)) < Work(s) && SameWorld(s, Apply(s, x)) && Apply(s, x).loop == s.loop
  {
    var c := if input then s.input else s.output;
    CopyMoves(c, input);
    CopyStepIsWork(s, NextCopyStep(c, input));
  }

  lemma LoopMoveIsNearer(s: State)
    requires Invariant(s) && s.loop.outcome.None? && s.input.pc.Finished? && s.output.pc.Finished? && s.closeSeen
    ensures LoopReady(s, NextMove(s)) && Who(NextMove(s)).SelectLoop? && Work(Apply(s, NextMove(s))) < Work(s)
    ensures !s.input.failed && !s.output.failed ==> LoopAfter(s, NextMove(s)).outcome in {None, Some(Nil)}
  {
    LoopStepIsWork(s, NextMove(s));
  }

  lemma CloseMoveIsNearer(s: State)
    requires LastSaid(s) && !s.closeSeen
    ensures Enabled(s, SignalClose) && Apply(s, SignalClose) == s.(closeSeen := true)
    ensures Work(Apply(s, SignalClose)) < Work(s) && SameWorld(s, Apply(s, SignalClose))
  {
  }

  lemma MoveIsNearer(s: State)
    requires Invariant(s) && s.loop.outcome.None? && LastSaid(s)
    ensures Enabled(s, NextMove(s)) && Work(Apply(s, NextMove(s))) < Work(s) && SameWorld(s, Apply(s, NextMove(s)))
    ensures !s.input.failed && !s.output.failed ==> Apply(s, NextMove(s)).loop.outcome in {None, Some(Nil)}
  {
    if !s.input.pc.Finished? {
      CopyMoveIsNearer(s, true);
    } else if !s.output.pc.Finished? {
      CopyMoveIsNearer(s, false);
    } else if !s.closeSeen {
      CloseMoveIsNearer(s);
    } else {
      LoopMoveIsNearer(s);
    }
  }

  /** When client and backend have said their last, some step always brings the function's return nearer. */
  lemma NoDeadlock(s: State) returns (x: Step)
    requires Reachable(s) && s.loop.outcome.None? && LastSaid(s)
    ensures Enabled(s, x) && Work(Apply(s, x)) < Work(s)
  {
    ReachableIsInvariant(s);
    x := NextMove(s);
    MoveIsNearer(s);
  }

  /** So without a failed copy the function can still return nil. */
  lemma {:induction false} CanReturnNil(xs: seq<Step>) returns (ys: seq<Step>)
    requires var s := Run(INIT, xs); s.loop.outcome.None? && LastSaid(s) && !s.input.failed && !s.output.failed
    ensures var s, t := Run(INIT, xs), Run(INIT, ys); t.loop.outcome == Some(Nil) && SameWorld(s, t)
    decreases Work(Run(INIT, xs))
  {
    var s := Run(INIT, xs);
    RunKeepsInvariant(xs);
    MoveIsNearer(s);
    RunOneMore(xs, NextMove(s), s);
    ys := xs + [NextMove(s)];
    if Run(INIT, ys).loop.outcome.None? {
      WorkIsNatural(s);
      ys := CanReturnNil(ys);
    }
  }

  lemma WorkIsNatural(s: State)
    requires Invariant(s)
    ensures 0 <= Work(s)
  {
  }

  /** A lost transport looks like EOF and CLOSE: forwardSSH can return nil with a byte missing. */
  lemma LostTransportCanPassForNil() returns (xs: seq<Step>)
    ensures var s := Run(INIT, xs); s.loop.outcome == Some(Nil) && s.sent == [7] && s.output.sink == [] && !s.cancelled
  {
    var s := INIT.(sent := [7]);
    RunOneMore([], BackendSends([7]), INIT);
    var t := s.(output := NEW_COPY.(ended := true), requests := Lost(true));
    RunOneMore([] + [BackendSends([7])], TransportLost, s);
    xs := [] + [BackendSends([7])] + [TransportLost];
    RunOneMore(xs, ClientEOF, t);
    xs := CanReturnNil(xs + [ClientEOF]);
    NilMeansComplete(Run(INIT, xs));
  }

  lemma StepTo(xs: seq<Step>, s: State, x: Step, t: State) returns (ys: seq<Step>)
    requires s == Run(INIT, xs) && Enabled(s, x) && t == Apply(s, x)
    ensures t == Run(INIT, ys)
  {
    RunOneMore(xs, x, s);
    ys := xs + [x];
  }

  /** Everything that client and backend have to say has been said, and nothing of it copied. */
  lemma AllIsSaid(a: seq<Byte>, b: seq<Byte>) returns (xs: seq<Step>)
    ensures Run(INIT, xs) == INIT.(input := NEW_COPY.(source := a, ended := true),
                                   output := NEW_COPY.(source := b, ended := true), sent := b, requests := Closed)
  {
    assert [] + a == a && [] + b == b;
    var s := INIT.(sent := b);
    xs := StepTo([], INIT, BackendSends(b), s);
    var t := s.(output := NEW_COPY.(source := b));
    xs := StepTo(xs, s, Arrive(b), t);
    s := t.(output := NEW_COPY.(source := b, ended := true), requests := Closed);
    xs := StepTo(xs, t, BackendCloses, s);
    t := s.(input := NEW_COPY.(source := a));
    xs := StepTo(xs, s, ClientSends(a), t);
    xs := StepTo(xs, t, ClientEOF, t.(input := NEW_COPY.(source := a, ended := true)));
  }

  /** Whatever client and backend have to send, it can all be forwarded, with nil in the end. */
  lemma EverythingCanBeForwarded(a: seq<Byte>, b: seq<Byte>) returns (xs: seq<Step>)
    ensures var s := Run(INIT, xs);
      && s.loop.outcome == Some(Nil) && s.input.sink == a && s.output.sink == b == s.sent
      && s.input.closedWrite && s.output.closedWrite && s.requests.Closed?
  {
    xs := AllIsSaid(a, b);
    xs := CanReturnNil(xs);
    NilMeansComplete(Run(INIT, xs));
  }

  // ----- What the select must do -----

  /** The context can end at any time; that alone changes nothing else. */
  lemma ContextCanEnd(s: State)
    requires !s.cancelled
    ensures Enabled(s, Cancel) && Apply(s, Cancel).cancelled
    ensures Apply(s, Cancel) == s.(cancelled := true, cancelledAfterEOF := Apply(s, Cancel).cancelledAfterEOF)
  {
  }

  /** A cancellation before output EOF: the select can fire, and returns the context's error at once. */
  lemma CancellationAborts(s: State)
    requires Reachable(s) && s.loop.outcome.None? && Looping(s.loop) && s.cancelled && !s.outputEOF
    ensures Enabled(s, TakeCancel) && Apply(s, TakeCancel).loop.outcome == Some(Aborted)
  {
    ReachableIsInvariant(s);
  }

  /** A cancellation after output EOF: the select can fire once, and arms the timer. */
  lemma CancellationArmsTimer(s: State)
    requires Reachable(s) && s.loop.outcome.None? && Looping(s.loop) && s.cancelled && s.outputEOF && s.loop.timers == 0
    ensures Enabled(s, TakeCancel)
    ensures Apply(s, TakeCancel).loop == s.loop.(watchContext := false, timers := 1)
  {
    ReachableIsInvariant(s);
  }

  /** The armed timer can fire, and then the select can, and returns. */
  lemma TimerEndsDrain(s: State)
    requires Reachable(s) && s.loop.outcome.None? && Looping(s.loop) && s.loop.timers == 1
    ensures Enabled(s, TimerFires) && Apply(s, TimerFires).loop.expired
    ensures s.loop.expired ==> Enabled(s, TakeTimer) && Apply(s, TakeTimer).loop.outcome == Some(DrainExpired)
  {
    ReachableIsInvariant(s);
  }

  /** A result of the input copy that has not been taken: the select can fire; an error returns, a clean end nils the channel. */
  lemma InputResultIsTaken(s: State)
    requires Reachable(s) && s.loop.outcome.None? && s.loop.inputDone && s.input.pc.Finished?
    ensures Enabled(s, TakeInput) &&
      Apply(s, TakeInput).loop == if s.input.failed then s.loop.(outcome := Some(InputError)) else s.loop.(inputDone := false)
  {
    ReachableIsInvariant(s);
  }

  /** ... and of the output copy, ... */
  lemma OutputResultIsTaken(s: State)
    requires Reachable(s) && s.loop.outcome.None? && s.loop.outputDone && s.output.pc.Finished?
    ensures Enabled(s, TakeOutput) &&
      Apply(s, TakeOutput).loop == if s.output.failed then s.loop.(outcome := Some(OutputError)) else s.loop.(outputDone := false)
  {
    ReachableIsInvariant(s);
  }

  /** ... and the end of the requests; with all three taken the loop is left with nil. */
  lemma CloseIsTaken(s: State)
    requires Reachable(s) && s.loop.outcome.None?
    ensures s.loop.remoteClosed && s.closeSeen ==> Enabled(s, TakeClose) && Apply(s, TakeClose).loop == s.loop.(remoteClosed := false)
    ensures !Looping(s.loop) ==> Enabled(s, LeaveLoop) && Apply(s, LeaveLoop).loop.outcome == Some(Nil)
  {
    ReachableIsInvariant(s);
  }

  // ----- The loop -----

  /** What the others do before the select fires, and the case it picks. */
  datatype Round = Round(others: seq<Step>, pick: Step)

  /** The steps that are not the select's. */
  function OthersOf(xs: seq<Step>): seq<Step> {
    if xs == [] then [] else OthersOf(xs[..|xs| - 1]) + if Who(Last(xs)).SelectLoop? then [] else [Last(xs)]
  }

  lemma {:induction false} OthersAreKept(xs: seq<Step>, x: Step)
    ensures multiset(OthersOf(xs))[x] == if Who(x).SelectLoop? then 0 else multiset(xs)[x]
  {
    if xs != [] {
      assert xs == xs[..|xs| - 1] + [Last(xs)];
      OthersAreKept(xs[..|xs| - 1], x);
    }
  }

  /** Everything that the rounds offer, in order; Run skips what cannot be taken. */
  function Offered(rounds: seq<Round>): seq<Step> {
    if rounds == [] then [] else
      var r := Last(rounds);
      Offered(rounds[..|rounds| - 1]) + OthersOf(r.others) + if Who(r.pick).SelectLoop? then [r.pick] else []
  }

  lemma OfferedOneMore(rounds: seq<Round>, i: nat)
    requires i < |rounds|
    ensures Offered(rounds[..i + 1]) ==
      Offered(rounds[..i]) + OthersOf(rounds[i].others) + if Who(rounds[i].pick).SelectLoop? then [rounds[i].pick] else []
  {
    assert rounds[..i + 1][..i] == rounds[..i];
  }

  /** The case that was picked, if any, is not ready. */
  predicate NothingToPick(s: State, r: Round) {
    !(Who(r.pick).SelectLoop? && LoopReady(s, r.pick))
  }

  lemma SkippedOneMore(xs: seq<Step>, x: Step)
    requires !Enabled(Run(INIT, xs), x)
    ensures Run(INIT, xs + [x]) == Run(INIT, xs)
  {
    assert (xs + [x])[..|xs|] == xs;
  }

  lemma RunOneMore(xs: seq<Step>, x: Step, s: State)
    requires s == Run(INIT, xs) && Enabled(s, x)
    ensures Run(INIT, xs + [x]) == Apply(s, x)
  {
    assert (xs + [x])[..|xs|] == xs;
  }

  lemma SelectOneMore(xs: seq<Step>, x: Step, s: State)
    requires s == Run(INIT, xs) && Who(x).SelectLoop? && LoopReady(s, x)
    ensures Run(INIT, xs + [x]) == s.(loop := LoopAfter(s, x))
    ensures Channels(LoopAfter(s, x)) == Channels(s.loop) - if LoopAfter(s, x).outcome.None? then 1 else 0
  {
    RunOneMore(xs, x, s);
    LoopIterationEnds(s, x);
  }

  lemma OtherOneMore(xs: seq<Step>, x: Step, s: State)
    requires s == Run(INIT, xs) && !Who(x).SelectLoop?
    ensures var t := if Enabled(s, x) then Apply(s, x) else s;
      Run(INIT, xs + [x]) == t && t.loop == s.loop.(expired := t.loop.expired)
  {
    if Enabled(s, x) {
      RunOneMore(xs, x, s);
      OthersKeepLoop(s, x);
    } else {
      SkippedOneMore(xs, x);
    }
  }

  /** The copies, the watcher and the adversary step as the schedule says; the loop waits. */
  method Interleave(s0: State, ghost before: seq<Step>, others: seq<Step>) returns (s: State, ghost xs: seq<Step>)
    requires s0 == Run(INIT, before)
    ensures s == Run(INIT, xs) && xs == before + OthersOf(others)
    ensures s.loop == s0.loop.(expired := s.loop.expired) && Channels(s.loop) == Channels(s0.loop)
  {
    s, xs := s0, before;
    for i := 0 to |others|
      invariant s == Run(INIT, xs) && xs == before + OthersOf(others[..i])
      invariant s.loop == s0.loop.(expired := s.loop.expired)
    {
      var x := others[i];
      assert others[..i + 1][..i] == others[..i];
      if !Who(x).SelectLoop? {
        OtherOneMore(xs, x, s);
        s, xs := if Enabled(s, x) then Apply(s, x) else s, xs + [x];
      }
    }
    assert others[..|others|] == others;
  }

  /** The variables of the select loop. */
  class Selector {
    var inputDone: bool
    var outputDone: bool
    var remoteClosed: bool
    var watchContext: bool
    var timers: nat

    constructor ()
      ensures View(false, None) == INIT.loop
    {
      inputDone, outputDone, remoteClosed, watchContext, timers := true, true, true, true, 0;
    }

    function View(expired: bool, outcome: Option<Outcome>): Loop
      reads this
    {
      Loop(inputDone, outputDone, remoteClosed, watchContext, timers, expired, outcome)
    }

    /** One firing of the select: the case nils its channel or returns. */
    method Fire(s: State, pick: Step) returns (returned: Option<Outcome>)
      requires s.loop == View(s.loop.expired, None) && Who(pick).SelectLoop? && !pick.LeaveLoop? && LoopReady(s, pick)
      modifies this
      ensures View(s.loop.expired, returned) == LoopAfter(s, pick)
    {
      returned := None;
      match pick {
        case TakeInput =>
          if s.input.result.value {
            return Some(InputError);
          }
          inputDone := false;
        case TakeOutput =>
          if s.output.result.value {
            return Some(OutputError);
          }
          outputDone := false;
        case TakeClose => remoteClosed := false;
        case TakeCancel =>
          if !s.outputEOF {
            return Some(Aborted);
          }
          watchContext := false;
          timers := timers + 1;
        case _ => returned := Some(DrainExpired);
      }
    }
  }

  /** One turn: the select fires if the case that is picked is ready, and waits on otherwise. */
  method Iterate(select: Selector, s0: State, ghost before: seq<Step>, pick: Step) returns (s: State, ghost xs: seq<Step>, fires: bool)
    requires s0 == Run(INIT, before) && s0.loop == select.View(s0.loop.expired, None) && Looping(s0.loop)
    requires Who(pick).SelectLoop?
    modifies select
    ensures s == Run(INIT, xs) && xs == before + [pick] && s.loop == select.View(s.loop.expired, s.loop.outcome)
    ensures fires == LoopReady(s0, pick) && s.loop.outcome != Some(Nil)
    ensures s.loop.outcome.None? ==> !LoopReady(s, pick) && Channels(s.loop) + (if fires then 1 else 0) == Channels(s0.loop)
  {
    fires, s, xs := LoopReady(s0, pick), s0, before + [pick];
    if fires {
      var returned := select.Fire(s0, pick);
      SelectOneMore(before, pick, s0);
      s := s0.(loop := select.View(s0.loop.expired, returned));
    } else {
      SkippedOneMore(before, pick);
    }
  }

  /** One turn of the loop, with what the others do before. */
  method TakeTurn(select: Selector, s0: State, ghost before: seq<Step>, r: Round) returns (s: State, ghost xs: seq<Step>, fires: bool)
    requires s0 == Run(INIT, before) && s0.loop == select.View(s0.loop.expired, None) && Looping(s0.loop)
    modifies select
    ensures s == Run(INIT, xs) && xs == before + OthersOf(r.others) + if Who(r.pick).SelectLoop? then [r.pick] else []
    ensures s.loop == select.View(s.loop.expired, s.loop.outcome) && s.loop.outcome != Some(Nil)
    ensures s.loop.outcome.None? ==> NothingToPick(s, r) && Channels(s.loop) + (if fires then 1 else 0) == Channels(s0.loop)
  {
    s, xs := Interleave(s0, before, r.others);
    fires := false;
    if Who(r.pick).SelectLoop? {
      s, xs, fires := Iterate(select, s, xs, r.pick);
    }
  }

  /** Past the loop nil is returned, with every copy reported and the CLOSE seen. */
  method Leave(s0: State, ghost before: seq<Step>) returns (s: State, ghost xs: seq<Step>)
    requires s0 == Run(INIT, before) && s0.loop.outcome != Some(Nil)
    ensures s == Run(INIT, xs) && xs == before + if s.loop.outcome == Some(Nil) then [LeaveLoop] else []
    ensures s.loop.outcome.None? ==> s == s0 && Looping(s.loop)
  {
    s, xs := s0, before;
    if s.loop.outcome.None? && !Looping(s.loop) {
      SelectOneMore(xs, LeaveLoop, s);
      s, xs := s.(loop := s.loop.(outcome := Some(Nil))), xs + [LeaveLoop];
    }
  }

  /**
   The select loop of forwardSSH under any schedule, as an interleaving of the machine: it takes turns until it returns
   or the schedule ends; then it still waits, and what it was last to pick is not ready. It fires at most five times.
   */
  method ForwardLoop(rounds: seq<Round>) returns (s: State, fired: nat, turns: nat, ghost xs: seq<Step>)
    ensures turns <= |rounds| && fired <= 5
    ensures s == Run(INIT, xs) && xs == Offered(rounds[..turns]) + if s.loop.outcome == Some(Nil) then [LeaveLoop] else []
    ensures s.loop.outcome.None? ==> turns == |rounds| && Looping(s.loop) && (turns > 0 ==> NothingToPick(s, rounds[turns - 1]))
  {
    var select := new Selector();
    s, xs, fired, turns := INIT, [], 0, 0;
    while (select.inputDone || select.outputDone || select.remoteClosed) && s.loop.outcome.None? && turns < |rounds|
      invariant turns <= |rounds| && s == Run(INIT, xs) && xs == Offered(rounds[..turns])
      invariant s.loop == select.View(s.loop.expired, s.loop.outcome) && s.loop.outcome != Some(Nil)
      invariant if s.loop.outcome.None? then fired + Channels(s.loop) == 4 else fired <= 5
      invariant s.loop.outcome.None? && turns > 0 ==> NothingToPick(s, rounds[turns - 1])
      decreases |rounds| - turns
    {
      OfferedOneMore(rounds, turns);
      var fires;
      s, xs, fires := TakeTurn(select, s, xs, rounds[turns]);
      fired, turns := fired + if fires then 1 else 0, turns + 1;
    }
    s, xs := Leave(s, xs);
  }
}
