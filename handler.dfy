/**
 * The connection handler as an object whose methods update its fields in place, each method
 * proved to have exactly the effect that `Connection` gives the operation on the handler's
 * state.
 *
 * The collaborators are not objects here: each call the handler makes to the idler, the
 * folder observer or a command completion is appended to the ghost field `events`, and the
 * answer a completion gives is the `accepts` argument of `MessageReceived`.
 */
module Handler {
  import opened Wrappers
  import opened Lines
  import opened Connection
  import opened Properties

  /** The mailbox changes of one IDLE cycle, updated in place as notifications arrive. */
  class PushedData {
    var idleExitSent: bool
    var pushAdds: set<int>
    var pushRemoves: set<int>

    constructor ()
      ensures !idleExitSent && pushAdds == {} && pushRemoves == {}
    {
      idleExitSent := false;
      pushAdds := {};
      pushRemoves := {};
    }

    ghost function Diff(): PushDiff
      reads this
    {
      PushDiff(idleExitSent, pushAdds, pushRemoves)
    }

    /** Folds an EXISTS or EXPUNGE notification into the sets. */
    method Fold(m: string)
      requires ExistsCount(m).Some? || ExpungeCount(m).Some?
      modifies this
      ensures Diff() == Noted(old(Diff()), m)
    {
      var grew := ExistsCount(m);
      if grew.Some? {
        pushAdds := pushAdds + {grew.value};
        pushRemoves := pushRemoves - {grew.value};
      } else {
        var shrank := ExpungeCount(m).value;
        pushRemoves := pushRemoves + {shrank};
        pushAdds := pushAdds - {shrank};
      }
    }
  }

  class MailClientHandler {
    var wireTrace: seq<string>
    var loginComplete: nat
    var isLoggedIn: bool
    var capabilities: Option<seq<string>>
    var observer: Option<Observer>
    /** Set by the idler when it sends IDLE; cleared here when IDLE ends. */
    var idling: bool
    var idleAcknowledged: bool
    var halt: bool
    var errorStack: seq<WireError>
    var completions: seq<Completion>
    var pushedData: PushedData?
    /** The calls made so far to the idler, the folder observer and the command completions. */
    ghost var events: seq<Event>

    /** The handler's state as a value. */
    ghost function State(): Conn
      reads this, pushedData
    {
      Conn(wireTrace, loginComplete, isLoggedIn, capabilities, observer, idling, idleAcknowledged, halt,
           errorStack, completions, if pushedData == null then None else Some(pushedData.Diff()), events)
    }

    ghost predicate Valid()
      reads this, pushedData
    {
      Invariant(State())
    }

    constructor ()
      ensures State() == Initial && Valid()
    {
      wireTrace := [];
      loginComplete := LoginPermits;
      isLoggedIn := false;
      capabilities := None;
      observer := None;
      idling := false;
      idleAcknowledged := false;
      halt := false;
      errorStack := [];
      completions := [];
      pushedData := null;
      events := [];
    }

    // -------------------------------------------------------------------------------------
    // Queries
    // -------------------------------------------------------------------------------------

    method IsLoggedIn() returns (r: bool)
      ensures r == State().isLoggedIn
    {
      r := isLoggedIn;
    }

    method GetCapabilities() returns (r: Option<seq<string>>)
      ensures r == State().capabilities
    {
      r := capabilities;
    }

    method IsHalted() returns (r: bool)
      ensures r == State().halt
    {
      r := halt;
    }

    // -------------------------------------------------------------------------------------
    // Operations called by the client
    // -------------------------------------------------------------------------------------

    method Enqueue(c: Completion)
      requires Valid()
      modifies this
      ensures State() == Connection.Enqueue(old(State()), c) && Valid()
    {
      completions := completions + [c];
    }

    method Observe(o: Option<Observer>)
      requires Valid()
      modifies this
      ensures State() == Connection.Observe(old(State()), o) && fresh(pushedData) && Valid()
    {
      observer := o;
      pushedData := new PushedData();
      idleAcknowledged := false;
    }

    method Halt()
      requires Valid()
      modifies this
      ensures State() == Connection.Halt(old(State())) && Valid()
    {
      halt := true;
    }

    method LastError() returns (e: Option<WireError>)
      requires Valid()
      modifies this
      ensures (e, State()) == Connection.LastError(old(State())) && Valid()
    {
      if errorStack == [] {
        e := None;
      } else {
        e := Some(errorStack[0]);
        errorStack := errorStack[1..];
      }
    }

    method AwaitLogin() returns (r: Result<bool>)
      requires Valid()
      modifies this
      ensures (r, State()) == Connection.AwaitLogin(old(State())) && Valid()
    {
      if loginComplete == 0 {
        r := Ok(isLoggedIn);
      } else {
        errorStack := [WireError(None, LoginTimedOut, wireTrace)] + errorStack;
        r := Err(LoginTimedOut);
      }
    }

    method ExceptionCaught(causeMessage: string)
      requires Valid()
      modifies this
      ensures State() == Connection.ExceptionCaught(old(State()), causeMessage) && Valid()
    {
      DisconnectAbnormally(causeMessage);
    }

    // -------------------------------------------------------------------------------------
    // Inbound lines
    // -------------------------------------------------------------------------------------

    /** One inbound line; `faulted` says that its processing threw. */
    method MessageReceived(message: string, accepts: (Completion, string) -> bool) returns (faulted: bool)
      requires Valid()
      modifies this, pushedData
      ensures State() == Receive(old(State()), message, accepts).conn
      ensures faulted == Receive(old(State()), message, accepts).faulted
      ensures Valid()
    {
      ghost var s := State();
      ReceiveKeepsInvariant(s, message, accepts);
      Trace(message);
      if IsSystemError(message) || IsBandwidthLimit(message) {
        faulted := Disconnected(s, message, accepts);
      } else if halt {
        ReceiveHalted(s, message, accepts);
        faulted := false;
      } else if IsCapability(message) {
        faulted := Capabilities(s, message, accepts);
      } else if !isLoggedIn {
        faulted := LoginResult(s, message, accepts);
      } else {
        faulted := Dispatch(s, message, accepts);
      }
    }

    /** Adds the line to the trace, dropping the oldest line beyond the limit. */
    method Trace(message: string)
      modifies this
      ensures State() == Traced(old(State()), message) && pushedData == old(pushedData)
    {
      wireTrace := wireTrace + [message];
      if |wireTrace| > TraceLimit {
        wireTrace := wireTrace[1..];
      }
    }

    /** A fatal line disconnects. */
    method Disconnected(ghost s: Conn, message: string, accepts: (Completion, string) -> bool) returns (faulted: bool)
      requires State() == Traced(s, message) && (IsSystemError(message) || IsBandwidthLimit(message))
      modifies this
      ensures State() == Receive(s, message, accepts).conn && faulted == Receive(s, message, accepts).faulted
    {
      ReceiveFatal(s, message, accepts);
      DisconnectAbnormally(message);
      faulted := false;
    }

    /** A capability line records the advertised capabilities and counts the login latch down. */
    method Capabilities(ghost s: Conn, message: string, accepts: (Completion, string) -> bool) returns (faulted: bool)
      requires State() == Traced(s, message) && !s.halt
      requires !IsSystemError(message) && !IsBandwidthLimit(message) && IsCapability(message)
      modifies this
      ensures State() == Receive(s, message, accepts).conn && faulted == Receive(s, message, accepts).faulted
    {
      if |message| < |CapabilityPrefix| + 1 {
        ReceiveCapabilityFaults(s, message, accepts);
        faulted := Fault(message);
      } else {
        ReceiveCapability(s, message, accepts);
        capabilities := Some(Split(message[|CapabilityPrefix| + 1..]));
        loginComplete := CountDown(loginComplete);
        faulted := false;
      }
    }

    /** Before login, the line is the authentication result. */
    method LoginResult(ghost s: Conn, message: string, accepts: (Completion, string) -> bool) returns (faulted: bool)
      requires State() == Traced(s, message) && !s.halt && !s.isLoggedIn
      requires !IsSystemError(message) && !IsBandwidthLimit(message) && !IsCapability(message)
      modifies this
      ensures State() == Receive(s, message, accepts).conn && faulted == Receive(s, message, accepts).faulted
    {
      ReceiveBeforeLogin(s, message, accepts);
      Login(message);
      faulted := false;
    }

    /** Once logged in, the line goes to the IDLE branch while idling, and to `complete` otherwise. */
    method Dispatch(ghost s: Conn, message: string, accepts: (Completion, string) -> bool) returns (faulted: bool)
      requires State() == Traced(s, message) && !s.halt && s.isLoggedIn
      requires !IsSystemError(message) && !IsBandwidthLimit(message) && !IsCapability(message)
      modifies this, pushedData
      ensures State() == Receive(s, message, accepts).conn && faulted == Receive(s, message, accepts).faulted
    {
      if idling {
        ReceiveIdling(s, message, accepts);
        faulted := Idle(Lower(message), accepts);
      } else {
        ReceiveCompletes(s, message, accepts);
        Complete(message, accepts);
        faulted := false;
      }
    }

    /** The pre-login branch: the authentication result, if the line is one. */
    method Login(message: string)
      modifies this
      ensures State() == Connection.Login(old(State()), message)
    {
      ghost var s := State();
      if IsAuthSuccess(message) {
        isLoggedIn := true;
        loginComplete := CountDown(loginComplete);
      } else {
        var failed := CommandFailed(message);
        if failed.Some? {
          loginComplete := CountDown(loginComplete);
          errorStack := [WireError(None, ExtractError(failed.value), wireTrace)] + errorStack;
          assert State() == Record(s.(loginComplete := CountDown(s.loginComplete)), None, ExtractError(failed.value));
          DisconnectAbnormally(message);
        }
      }
    }

    /** The idling branch, on the lower-cased line `m`. */
    method Idle(m: string, accepts: (Completion, string) -> bool) returns (faulted: bool)
      modifies this, pushedData
      ensures State() == Connection.Idle(old(State()), m, accepts).conn
      ensures faulted == Connection.Idle(old(State()), m, accepts).faulted
    {
      if IsIdleEnded(m) {
        faulted := IdleEnded(m, accepts);
      } else if ExistsCount(m).None? && ExpungeCount(m).None? {
        IdleOtherCompletes(State(), m, accepts);
        Complete(m, accepts);
        faulted := false;
      } else {
        faulted := Notice(m, accepts);
      }
    }

    /** The end of IDLE: both idle flags drop, and the cycle's changes go to the observer. */
    method IdleEnded(m: string, accepts: (Completion, string) -> bool) returns (faulted: bool)
      requires IsIdleEnded(m)
      modifies this
      ensures State() == Connection.Idle(old(State()), m, accepts).conn
      ensures faulted == Connection.Idle(old(State()), m, accepts).faulted
    {
      ghost var s := State();
      var watcher := observer;
      idling := false;
      idleAcknowledged := false;
      var data := pushedData;
      pushedData := null;
      events := events + [IdleEnd];
      ghost var ended := s.(idling := false, idleAcknowledged := false, pushedData := None, events := s.events + [IdleEnd]);
      assert State() == ended;
      if data == null || watcher.None? {
        IdleEndedFaults(s, m, accepts);
        faulted := Fault(m);
      } else {
        IdleEndedFlushes(s, m, accepts);
        assert data.Diff() == s.pushedData.value;
        events := events + [Changed(watcher.value, NullIfEmpty(data.pushAdds), NullIfEmpty(data.pushRemoves))];
        faulted := false;
      }
    }

    /** An EXISTS or EXPUNGE notification while idling. */
    method Notice(m: string, accepts: (Completion, string) -> bool) returns (faulted: bool)
      requires !IsIdleEnded(m) && (ExistsCount(m).Some? || ExpungeCount(m).Some?)
      modifies this, pushedData
      ensures State() == Connection.Idle(old(State()), m, accepts).conn
      ensures faulted == Connection.Idle(old(State()), m, accepts).faulted
    {
      ghost var s := State();
      var grew := ExistsCount(m);
      var number := if grew.Some? then grew.value else ExpungeCount(m).value;
      if number > IntMax || pushedData == null {
        IdleNoticeFaults(s, m, accepts);
        faulted := Fault(m);
        return;
      }
      pushedData.Fold(m);
      if !pushedData.idleExitSent {
        IdleNoticeRequestsExit(s, m, accepts);
        events := events + [IdleDone];
        pushedData.idleExitSent := true;
        faulted := false;
      } else {
        IdleNoticeAfterExit(s, m, accepts);
        Complete(m, accepts);
        faulted := false;
      }
    }

    /** `complete`: resolves the line against the head of the completion queue. */
    method Complete(message: string, accepts: (Completion, string) -> bool)
      modifies this
      ensures State() == Connection.Complete(old(State()), message, accepts)
    {
      ghost var s := State();
      if EqualsIgnoreCase(message, InvalidTagLine) {
        errorStack := [WireError(Peek(completions), message, wireTrace)] + errorStack;
        assert State() == Record(s, Peek(s.completions), message);
        return;
      }
      if completions == [] {
        if EqualsIgnoreCase(message, IdlingLine) {
          events := events + [IdleStart];
          idleAcknowledged := true;
          assert State() == s.(events := s.events + [IdleStart], idleAcknowledged := true);
        } else {
          errorStack := [WireError(None, NoCompletionFound, wireTrace)] + errorStack;
          assert State() == Record(s, None, NoCompletionFound);
        }
        return;
      }
      var head := completions[0];
      events := events + [CompletionComplete(head, message)];
      assert State() == s.(events := s.events + [CompletionComplete(head, message)]);
      if accepts(head, message) {
        completions := completions[1..];
      }
    }

    /** `disconnectAbnormally`. */
    method DisconnectAbnormally(message: string)
      modifies this
      ensures State() == Connection.DisconnectAbnormally(old(State()), message)
    {
      halt := true;
      var head := Peek(completions);
      if completions != [] {
        completions := completions[1..];
      }
      errorStack := [WireError(head, message, wireTrace)] + errorStack;
      events := events + [Disconnect];
    }

    /** The catch block of `messageReceived`. */
    method Fault(message: string) returns (faulted: bool)
      modifies this
      ensures State() == Connection.Fault(old(State()), message).conn && faulted
    {
      if completions == [] {
        errorStack := [WireError(None, NoCompletionsAvailable, wireTrace)] + errorStack;
      } else {
        events := events + [CompletionError(completions[0], message)];
        completions := completions[1..];
      }
      faulted := true;
    }
  }
}
