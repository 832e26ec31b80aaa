/**
 * The state of one IMAP client connection handler as a value, and the effect of each of its
 * operations on that value.
 *
 * `Conn` holds the handler's fields. Every call the handler makes to a collaborator (the
 * idler, the folder observer, a pending command completion) is appended to `events`. The
 * answer a command completion gives when it is offered a line is a parameter, `accepts`.
 * A Java exception thrown while a line is processed shows as `faulted` in the `Reaction`.
 */
module Connection {
  import opened Wrappers
  import opened Lines

  /** The identity of a pending CommandCompletion object. */
  type Completion = nat

  /** The identity of a FolderObserver object. */
  type Observer = nat

  /** At most this many recent lines are kept for diagnostics. */
  const TraceLimit := 25

  /** The login latch waits for the capability line and for the authentication result. */
  const LoginPermits := 2

  const NoCompletionFound := "No completion found!"
  const NoCompletionsAvailable := "No completions available!"
  const LoginTimedOut := "Timed out waiting for login response"

  /** An error record: the completion it concerns, a message, and a copy of the wire trace. */
  datatype WireError = WireError(completion: Option<Completion>, message: string, trace: seq<string>)

  /** The mailbox changes gathered during one IDLE cycle. */
  datatype PushDiff = PushDiff(idleExitSent: bool, pushAdds: set<int>, pushRemoves: set<int>)

  /** A call from the handler to one of its collaborators. */
  datatype Event =
    | IdleStart                                        // idler.idleStart()
    | IdleEnd                                          // idler.idleEnd()
    | IdleDone                                         // idler.done()
    | Disconnect                                       // idler.disconnect()
    | Changed(observer: Observer, adds: Option<set<int>>, removes: Option<set<int>>)
    | CompletionComplete(completion: Completion, line: string)   // completion.complete(line)
    | CompletionError(completion: Completion, line: string)      // completion.error(line, ex)

  datatype Conn = Conn(
    wireTrace: seq<string>,
    loginComplete: nat,
    isLoggedIn: bool,
    capabilities: Option<seq<string>>,
    observer: Option<Observer>,
    idling: bool,
    idleAcknowledged: bool,
    halt: bool,
    errorStack: seq<WireError>,     // the top of the stack first
    completions: seq<Completion>,   // the head of the queue first
    pushedData: Option<PushDiff>,
    events: seq<Event>)

  /** The state after a line, and whether its processing threw. */
  datatype Reaction = Reaction(conn: Conn, faulted: bool)

  /** A freshly constructed handler. */
  const Initial := Conn([], LoginPermits, false, None, None, false, false, false, [], [], None, [])

  // ---------------------------------------------------------------------------------------
  // Invariants and history
  // ---------------------------------------------------------------------------------------

  /** What every reachable state satisfies. */
  predicate Invariant(s: Conn) {
    && |s.wireTrace| <= TraceLimit
    && s.loginComplete <= LoginPermits
    && (s.pushedData.Some? ==> s.pushedData.value.pushAdds !! s.pushedData.value.pushRemoves)
  }

  /** A push cycle in which the IDLE exit has not been requested yet. */
  predicate Armed(s: Conn) {
    s.pushedData.Some? && !s.pushedData.value.idleExitSent
  }

  predicate IsSuffix<T(==)>(a: seq<T>, b: seq<T>) {
    |a| <= |b| && a == b[|b| - |a|..]
  }

  /** The last `n` elements of `s`, or all of them. */
  function LastN<T>(s: seq<T>, n: nat): seq<T> {
    if |s| <= n then s else s[|s| - n..]
  }

  /** The number of exit requests among the events. */
  function DoneCount(es: seq<Event>): nat {
    if es == [] then 0 else DoneCount(es[..|es| - 1]) + (if es[|es| - 1].IdleDone? then 1 else 0)
  }

  /** Appending one call adds one to the count exactly when it is an exit request. */
  lemma DoneCountSnoc(es: seq<Event>, e: Event)
    ensures DoneCount(es + [e]) == DoneCount(es) + (if e.IdleDone? then 1 else 0)
  {
    assert (es + [e])[..|es|] == es;
  }

  /**
   * How one inbound line may change the state besides the trace: the halt flag and the login
   * flag are never cleared, the latch only counts down, collaborator calls are only appended,
   * error records are only pushed, at most the head completion leaves the queue, nothing
   * re-arms a push cycle, and an exit request is made only by disarming one.
   */
  predicate Evolves(s: Conn, r: Conn) {
    && (s.halt ==> r.halt)
    && (s.isLoggedIn ==> r.isLoggedIn)
    && r.loginComplete <= s.loginComplete
    && s.events <= r.events
    && IsSuffix(s.errorStack, r.errorStack)
    && (r.completions == s.completions || (s.completions != [] && r.completions == s.completions[1..]))
    && (Armed(r) ==> Armed(s))
    && DoneCount(r.events) <= DoneCount(s.events) + (if Armed(s) && !Armed(r) then 1 else 0)
  }

  // ---------------------------------------------------------------------------------------
  // Building blocks
  // ---------------------------------------------------------------------------------------

  /** Adds a line to the trace, evicting the oldest one when more than the limit are held. */
  function TraceAdd(trace: seq<string>, line: string): (r: seq<string>)
    ensures |trace| <= TraceLimit ==> r == LastN(trace + [line], TraceLimit)
  {
    var t := trace + [line];
    if |t| > TraceLimit then t[1..] else t
  }

  /** Pushes an error record carrying a copy of the current trace. */
  function Record(s: Conn, c: Option<Completion>, message: string): (r: Conn)
    ensures r.errorStack == [WireError(c, message, s.wireTrace)] + s.errorStack
    ensures r == s.(errorStack := r.errorStack)
  {
    s.(errorStack := [WireError(c, message, s.wireTrace)] + s.errorStack)
  }

  /** The head completion, if any. */
  function Peek(q: seq<Completion>): Option<Completion> {
    if q == [] then None else Some(q[0])
  }

  /** Latch count-down: stays at zero once there. */
  function CountDown(n: nat): (r: nat)
    ensures r <= n && (n > 0 ==> r == n - 1)
  {
    if n == 0 then 0 else n - 1
  }

  /** `null` for an empty set of message numbers. */
  function NullIfEmpty(xs: set<int>): (r: Option<set<int>>)
    ensures r.None? <==> xs == {}
    ensures r.Some? ==> r.value == xs
  {
    if xs == {} then None else Some(xs)
  }

  /** Message `n` now exists: it is added and no longer removed; other numbers are unaffected. */
  function AddExists(d: PushDiff, n: int): (r: PushDiff)
    ensures n in r.pushAdds && n !in r.pushRemoves && r.idleExitSent == d.idleExitSent
    ensures forall k :: k != n ==> (k in r.pushAdds <==> k in d.pushAdds) && (k in r.pushRemoves <==> k in d.pushRemoves)
    ensures d.pushAdds !! d.pushRemoves ==> r.pushAdds !! r.pushRemoves
  {
    d.(pushAdds := d.pushAdds + {n}, pushRemoves := d.pushRemoves - {n})
  }

  /** Message `n` was expunged: it is removed and no longer added; other numbers are unaffected. */
  function AddExpunge(d: PushDiff, n: int): (r: PushDiff)
    ensures n in r.pushRemoves && n !in r.pushAdds && r.idleExitSent == d.idleExitSent
    ensures forall k :: k != n ==> (k in r.pushAdds <==> k in d.pushAdds) && (k in r.pushRemoves <==> k in d.pushRemoves)
    ensures d.pushAdds !! d.pushRemoves ==> r.pushAdds !! r.pushRemoves
  {
    d.(pushRemoves := d.pushRemoves + {n}, pushAdds := d.pushAdds - {n})
  }

  // ---------------------------------------------------------------------------------------
  // The operations
  // ---------------------------------------------------------------------------------------

  /** `enqueue`: a new pending completion joins the back of the queue. */
  function Enqueue(s: Conn, c: Completion): (r: Conn)
    ensures r.completions == s.completions + [c] && r.completions[..|s.completions|] == s.completions
    ensures r == s.(completions := r.completions)
  {
    s.(completions := s.completions + [c])
  }

  /** `observe`: registers the observer and starts a fresh, empty push cycle. */
  function Observe(s: Conn, o: Option<Observer>): (r: Conn)
    ensures r.observer == o && Armed(r) && r.pushedData.value.pushAdds == {} && r.pushedData.value.pushRemoves == {}
    ensures !r.idleAcknowledged
    ensures r == s.(observer := o, pushedData := r.pushedData, idleAcknowledged := false)
  {
    s.(observer := o, pushedData := Some(PushDiff(false, {}, {})), idleAcknowledged := false)
  }

  /** `halt`: raises the panic flag. */
  function Halt(s: Conn): (r: Conn)
    ensures r.halt && r == s.(halt := true)
  {
    s.(halt := true)
  }

  /**
   * `disconnectAbnormally`: halts, pushes an error record about the head completion, which
   * leaves the queue, and asks the idler to disconnect.
   */
  function DisconnectAbnormally(s: Conn, message: string): (r: Conn)
    ensures r == s.(halt := true,
                    completions := if s.completions == [] then [] else s.completions[1..],
                    errorStack := [WireError(Peek(s.completions), message, s.wireTrace)] + s.errorStack,
                    events := s.events + [Disconnect])
    ensures Evolves(s, r)
  {
    var polled := s.(halt := true, completions := if s.completions == [] then [] else s.completions[1..]);
    var recorded := Record(polled, Peek(s.completions), message);
    DoneCountSnoc(s.events, Disconnect);
    recorded.(events := recorded.events + [Disconnect])
  }

  /** `exceptionCaught`: a transport fault disconnects with the fault's message. */
  function ExceptionCaught(s: Conn, causeMessage: string): (r: Conn)
    ensures r == DisconnectAbnormally(s, causeMessage)
  {
    DisconnectAbnormally(s, causeMessage)
  }

  /**
   * The catch block of `messageReceived`: the head completion, if any, leaves the queue and is
   * told about the error; otherwise an error record is pushed. The exception is rethrown.
   */
  function Fault(s: Conn, message: string): (r: Reaction)
    ensures r.faulted && Evolves(s, r.conn)
    ensures s.completions != [] ==>
      r.conn == s.(completions := s.completions[1..], events := s.events + [CompletionError(s.completions[0], message)])
    ensures s.completions == [] ==> r.conn == Record(s, None, NoCompletionsAvailable)
  {
    if s.completions == [] then Reaction(Record(s, None, NoCompletionsAvailable), true)
    else
      DoneCountSnoc(s.events, CompletionError(s.completions[0], message));
      Reaction(s.(completions := s.completions[1..],
                  events := s.events + [CompletionError(s.completions[0], message)]), true)
  }

  /**
   * `complete`: matches a line against the head of the completion queue. The invalid-tag
   * quirk is recorded against the head without consuming it; with nothing pending, `+ idling`
   * acknowledges IDLE and any other line is recorded as unmatched; otherwise the head is
   * offered the line and leaves the queue exactly when it accepts it.
   */
  function Complete(s: Conn, line: string, accepts: (Completion, string) -> bool): (r: Conn)
    ensures s.events <= r.events && IsSuffix(s.errorStack, r.errorStack)
    ensures r.completions == s.completions || (s.completions != [] && r.completions == s.completions[1..])
    ensures r.halt == s.halt && r.isLoggedIn == s.isLoggedIn && r.loginComplete == s.loginComplete
    ensures r.idling == s.idling && r.pushedData == s.pushedData && r.wireTrace == s.wireTrace
    ensures r.observer == s.observer && r.capabilities == s.capabilities
    ensures DoneCount(r.events) == DoneCount(s.events)
  {
    if EqualsIgnoreCase(line, InvalidTagLine) then Record(s, Peek(s.completions), line)
    else if s.completions == [] then
      if EqualsIgnoreCase(line, IdlingLine) then
        DoneCountSnoc(s.events, IdleStart);
        s.(events := s.events + [IdleStart], idleAcknowledged := true)
      else Record(s, None, NoCompletionFound)
    else
      var head := s.completions[0];
      DoneCountSnoc(s.events, CompletionComplete(head, line));
      var asked := s.(events := s.events + [CompletionComplete(head, line)]);
      if accepts(head, line) then asked.(completions := s.completions[1..]) else asked
  }

  /**
   * The idling branch of `messageReceived`, on the lower-cased line `m`. The end of IDLE
   * clears both idle flags, drops the push data and flushes it to the observer; an EXISTS or
   * EXPUNGE notification folds into the push data and, the first time in a cycle, requests
   * the exit from IDLE. Every other line, and a notification after the exit request, goes on
   * to `complete`. A missing push data object or observer makes the handler throw, and so
   * does a message number `parseInt` cannot hold.
   */
  function Idle(s: Conn, m: string, accepts: (Completion, string) -> bool): (r: Reaction)
    ensures r.conn.wireTrace == s.wireTrace
  {
    if IsIdleEnded(m) then
      var ended := s.(idling := false, idleAcknowledged := false, pushedData := None, events := s.events + [IdleEnd]);
      if s.pushedData.Some? && s.observer.Some? then
        var d := s.pushedData.value;
        Reaction(ended.(events := ended.events + [Changed(s.observer.value, NullIfEmpty(d.pushAdds), NullIfEmpty(d.pushRemoves))]), false)
      else Fault(ended, m)
    else
      var grew := ExistsCount(m);
      var shrank := if grew.Some? then None else ExpungeCount(m);
      if grew.None? && shrank.None? then Reaction(Complete(s, m, accepts), false)
      else if (if grew.Some? then grew.value else shrank.value) > IntMax || s.pushedData.None? then Fault(s, m)
      else
        var d := s.pushedData.value;
        var noted := if grew.Some? then AddExists(d, grew.value) else AddExpunge(d, shrank.value);
        if !noted.idleExitSent then
          Reaction(s.(pushedData := Some(noted.(idleExitSent := true)), events := s.events + [IdleDone]), false)
        else Reaction(Complete(s.(pushedData := Some(noted)), m, accepts), false)
  }

  /**
   * The pre-login branch of `messageReceived`: a success reply logs in and counts the latch
   * down; a NO or BAD reply counts the latch down, records its reason and disconnects; any
   * other line is ignored.
   */
  function Login(s: Conn, line: string): (r: Conn)
    ensures Evolves(s, r) && r.wireTrace == s.wireTrace && r.pushedData == s.pushedData
  {
    if IsAuthSuccess(line) then s.(isLoggedIn := true, loginComplete := CountDown(s.loginComplete))
    else match CommandFailed(line)
      case Some(m) =>
        DisconnectAbnormally(Record(s.(loginComplete := CountDown(s.loginComplete)), None, ExtractError(m)), line)
      case None => s
  }

  /**
   * `messageReceived`: one inbound line. The line is traced; a fatal line disconnects even
   * once halted; a halted handler ignores everything else; a capability line records the
   * capabilities and counts the login latch down; before login the line is a login result;
   * while idling it is lower-cased and handled by the IDLE branch; otherwise it goes to
   * `complete`.
   */
  function Receive(s: Conn, line: string, accepts: (Completion, string) -> bool): (r: Reaction)
    ensures r.conn.wireTrace == TraceAdd(s.wireTrace, line)
  {
    var t := s.(wireTrace := TraceAdd(s.wireTrace, line));
    if IsSystemError(line) || IsBandwidthLimit(line) then Reaction(DisconnectAbnormally(t, line), false)
    else if t.halt then Reaction(t, false)
    else if IsCapability(line) then
      if |line| < |CapabilityPrefix| + 1 then Fault(t, line)
      else Reaction(t.(capabilities := Some(Split(line[|CapabilityPrefix| + 1..])),
                       loginComplete := CountDown(t.loginComplete)), false)
    else if !t.isLoggedIn then Reaction(Login(t, line), false)
    else if t.idling then Idle(t, Lower(line), accepts)
    else Reaction(Complete(t, line, accepts), false)
  }

  /** The state after the lines, delivered in order, whether or not some of them threw. */
  function Run(s: Conn, lines: seq<string>, accepts: (Completion, string) -> bool): Conn {
    if lines == [] then s
    else Receive(Run(s, lines[..|lines| - 1], accepts), lines[|lines| - 1], accepts).conn
  }

  /** `lastError`: pops the most recent error record, or gives `null` when there is none. */
  function LastError(s: Conn): (r: (Option<WireError>, Conn))
    ensures s.errorStack == [] ==> r.0 == None && r.1 == s
    ensures s.errorStack != [] ==> r.0 == Some(s.errorStack[0]) && r.1 == s.(errorStack := s.errorStack[1..])
  {
    if s.errorStack == [] then (None, s) else (Some(s.errorStack[0]), s.(errorStack := s.errorStack[1..]))
  }

  /**
   * `awaitLogin`: once both permits are in, the login flag. With a permit outstanding no line
   * can arrive while the caller waits, so the wait times out: an error record is pushed and
   * the call throws.
   */
  function AwaitLogin(s: Conn): (r: (Result<bool>, Conn))
    ensures s.loginComplete == 0 ==> r == (Ok(s.isLoggedIn), s)
    ensures s.loginComplete > 0 ==> r.0 == Err(LoginTimedOut) && r.1 == Record(s, None, LoginTimedOut)
  {
    if s.loginComplete == 0 then (Ok(s.isLoggedIn), s)
    else (Err(LoginTimedOut), Record(s, None, LoginTimedOut))
  }
}
