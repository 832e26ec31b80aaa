/**
 * Properties of the connection handler: what any inbound line may and may not change, what
 * holds after any sequence of lines, how each kind of line is handled, and the push-diff
 * coalescing during IDLE.
 */
module Properties {
  import opened Wrappers
  import opened Lines
  import opened LineShapes
  import opened Connection

  // ---------------------------------------------------------------------------------------
  // Bookkeeping
  // ---------------------------------------------------------------------------------------

  lemma {:induction false} DoneCountAppend(a: seq<Event>, b: seq<Event>)
    ensures DoneCount(a + b) == DoneCount(a) + DoneCount(b)
    decreases |b|
  {
    if b == [] {
      assert a + b == a;
    } else {
      assert (a + b)[..|a + b| - 1] == a + b[..|b| - 1];
      DoneCountAppend(a, b[..|b| - 1]);
    }
  }

  /** Appending calls other than `done()` leaves the count of exit requests alone. */
  lemma DoneCountNoDone(a: seq<Event>, b: seq<Event>)
    requires forall i :: 0 <= i < |b| ==> !b[i].IdleDone?
    ensures DoneCount(a + b) == DoneCount(a)
  {
    DoneCountAppend(a, b);
    DoneCountZero(b);
  }

  lemma {:induction false} DoneCountZero(b: seq<Event>)
    requires forall i :: 0 <= i < |b| ==> !b[i].IdleDone?
    ensures DoneCount(b) == 0
    decreases |b|
  {
    if b != [] {
      DoneCountZero(b[..|b| - 1]);
    }
  }

  /** Evolving is stable under changing nothing but the trace first. */
  lemma EvolvesFromTraced(s: Conn, t: Conn, r: Conn)
    requires t == s.(wireTrace := t.wireTrace)
    requires Evolves(t, r)
    ensures Evolves(s, r)
  {
  }

  // ---------------------------------------------------------------------------------------
  // One line
  // ---------------------------------------------------------------------------------------

  /** The push diff obtained by folding a notification into `d`. */
  function Noted(d: PushDiff, m: string): (r: PushDiff)
    requires ExistsCount(m).Some? || ExpungeCount(m).Some?
    ensures r.idleExitSent == d.idleExitSent
    ensures d.pushAdds !! d.pushRemoves ==> r.pushAdds !! r.pushRemoves
  {
    if ExistsCount(m).Some? then AddExists(d, ExistsCount(m).value) else AddExpunge(d, ExpungeCount(m).value)
  }

  /** The end of IDLE flushes the cycle's diff to the observer, `null` standing for no change. */
  lemma IdleEndedFlushes(s: Conn, m: string, accepts: (Completion, string) -> bool)
    requires IsIdleEnded(m) && s.pushedData.Some? && s.observer.Some?
    ensures Idle(s, m, accepts) == Reaction(s.(idling := false, idleAcknowledged := false, pushedData := None,
      events := s.events + [IdleEnd, Changed(s.observer.value, NullIfEmpty(s.pushedData.value.pushAdds),
                                                               NullIfEmpty(s.pushedData.value.pushRemoves))]), false)
  {
  }

  /** The end of IDLE without push data or without an observer throws once IDLE is over. */
  lemma IdleEndedFaults(s: Conn, m: string, accepts: (Completion, string) -> bool)
    requires IsIdleEnded(m) && (s.pushedData.None? || s.observer.None?)
    ensures Idle(s, m, accepts) == Fault(s.(idling := false, idleAcknowledged := false, pushedData := None,
                                            events := s.events + [IdleEnd]), m)
  {
  }

  /** The first EXISTS or EXPUNGE notification of a cycle is folded in and requests the exit. */
  lemma IdleNoticeRequestsExit(s: Conn, m: string, accepts: (Completion, string) -> bool)
    requires !IsIdleEnded(m) && s.pushedData.Some?
    requires ExistsCount(m).Some? || ExpungeCount(m).Some?
    requires Announced(m) <= IntMax
    requires !s.pushedData.value.idleExitSent
    ensures Idle(s, m, accepts) == Reaction(s.(pushedData := Some(Noted(s.pushedData.value, m).(idleExitSent := true)),
                                               events := s.events + [IdleDone]), false)
  {
  }

  /** A later notification of the same cycle is folded in and then handed to `complete`. */
  lemma IdleNoticeAfterExit(s: Conn, m: string, accepts: (Completion, string) -> bool)
    requires !IsIdleEnded(m) && s.pushedData.Some?
    requires ExistsCount(m).Some? || ExpungeCount(m).Some?
    requires Announced(m) <= IntMax
    requires s.pushedData.value.idleExitSent
    ensures Idle(s, m, accepts) == Reaction(Complete(s.(pushedData := Some(Noted(s.pushedData.value, m))), m, accepts), false)
  {
  }

  /** A notification with no push data, or with a number beyond `Integer.MAX_VALUE`, throws. */
  lemma IdleNoticeFaults(s: Conn, m: string, accepts: (Completion, string) -> bool)
    requires !IsIdleEnded(m) && (ExistsCount(m).Some? || ExpungeCount(m).Some?)
    requires s.pushedData.None? || Announced(m) > IntMax
    ensures Idle(s, m, accepts) == Fault(s, m)
  {
  }

  /** Any other line while idling goes to `complete`. */
  lemma IdleOtherCompletes(s: Conn, m: string, accepts: (Completion, string) -> bool)
    requires !IsIdleEnded(m) && ExistsCount(m).None? && ExpungeCount(m).None?
    ensures Idle(s, m, accepts) == Reaction(Complete(s, m, accepts), false)
  {
  }

  lemma FlushEvolves(s: Conn, o: Observer, d: PushDiff)
    requires s.pushedData == Some(d)
    ensures var r := s.(idling := false, idleAcknowledged := false, pushedData := None,
                        events := s.events + [IdleEnd, Changed(o, NullIfEmpty(d.pushAdds), NullIfEmpty(d.pushRemoves))]);
      Evolves(s, r) && (Invariant(s) ==> Invariant(r))
  {
    DoneCountNoDone(s.events, [IdleEnd, Changed(o, NullIfEmpty(d.pushAdds), NullIfEmpty(d.pushRemoves))]);
  }

  lemma EndedFaultEvolves(s: Conn, m: string)
    ensures var ended := s.(idling := false, idleAcknowledged := false, pushedData := None, events := s.events + [IdleEnd]);
      Evolves(s, Fault(ended, m).conn) && (Invariant(s) ==> Invariant(Fault(ended, m).conn))
  {
    var ended := s.(idling := false, idleAcknowledged := false, pushedData := None, events := s.events + [IdleEnd]);
    DoneCountNoDone(s.events, [IdleEnd]);
    if s.completions == [] {
      assert Fault(ended, m).conn == Record(ended, None, NoCompletionsAvailable);
    } else {
      var e := CompletionError(s.completions[0], m);
      assert Fault(ended, m).conn == ended.(completions := s.completions[1..], events := ended.events + [e]);
      DoneCountNoDone(s.events, [IdleEnd, e]);
      assert ended.events + [e] == s.events + [IdleEnd, e];
    }
  }

  lemma RequestExitEvolves(s: Conn, noted: PushDiff)
    requires Armed(s)
    ensures var r := s.(pushedData := Some(noted.(idleExitSent := true)), events := s.events + [IdleDone]);
      Evolves(s, r) && (Invariant(s) && noted.pushAdds !! noted.pushRemoves ==> Invariant(r))
  {
    DoneCountAppend(s.events, [IdleDone]);
    assert DoneCount([IdleDone]) == 1 by {
      assert [IdleDone][..0] == [];
    }
  }

  lemma NoteThenCompleteEvolves(s: Conn, noted: PushDiff, m: string, accepts: (Completion, string) -> bool)
    requires s.pushedData.Some? && s.pushedData.value.idleExitSent && noted.idleExitSent
    ensures var r := Complete(s.(pushedData := Some(noted)), m, accepts);
      Evolves(s, r) && (Invariant(s) && noted.pushAdds !! noted.pushRemoves ==> Invariant(r))
  {
    var c := Complete(s.(pushedData := Some(noted)), m, accepts);
    assert Evolves(s.(pushedData := Some(noted)), c);
  }

  /**
   * The IDLE branch keeps the history rules: an exit request is only made by disarming the
   * push cycle, and the push diff stays disjoint.
   */
  lemma IdleEvolves(s: Conn, m: string, accepts: (Completion, string) -> bool)
    ensures Evolves(s, Idle(s, m, accepts).conn)
    ensures Invariant(s) ==> Invariant(Idle(s, m, accepts).conn)
  {
    if IsIdleEnded(m) {
      IdleEndedEvolves(s, m, accepts);
    } else {
      IdleNoticeEvolves(s, m, accepts);
    }
  }

  lemma IdleEndedEvolves(s: Conn, m: string, accepts: (Completion, string) -> bool)
    requires IsIdleEnded(m)
    ensures Evolves(s, Idle(s, m, accepts).conn)
    ensures Invariant(s) ==> Invariant(Idle(s, m, accepts).conn)
  {
    if s.pushedData.Some? && s.observer.Some? {
      IdleEndedFlushes(s, m, accepts);
      FlushEvolves(s, s.observer.value, s.pushedData.value);
    } else {
      IdleEndedFaults(s, m, accepts);
      EndedFaultEvolves(s, m);
    }
  }

  lemma IdleNoticeEvolves(s: Conn, m: string, accepts: (Completion, string) -> bool)
    requires !IsIdleEnded(m)
    ensures Evolves(s, Idle(s, m, accepts).conn)
    ensures Invariant(s) ==> Invariant(Idle(s, m, accepts).conn)
  {
    if ExistsCount(m).None? && ExpungeCount(m).None? {
      IdleOtherCompletes(s, m, accepts);
    } else if s.pushedData.None? || Announced(m) > IntMax {
      IdleNoticeFaults(s, m, accepts);
    } else {
      var noted := Noted(s.pushedData.value, m);
      if !s.pushedData.value.idleExitSent {
        IdleNoticeRequestsExit(s, m, accepts);
        RequestExitEvolves(s, noted);
      } else {
        IdleNoticeAfterExit(s, m, accepts);
        NoteThenCompleteEvolves(s, noted, m, accepts);
      }
    }
  }

  /** A line with the trace updated and nothing else. */
  function Traced(s: Conn, line: string): (r: Conn)
    ensures r.wireTrace == TraceAdd(s.wireTrace, line)
    ensures r == s.(wireTrace := r.wireTrace)
  {
    s.(wireTrace := TraceAdd(s.wireTrace, line))
  }

  /** A system error or the bandwidth alert disconnects, whatever the state, halted or not. */
  lemma ReceiveFatal(s: Conn, line: string, accepts: (Completion, string) -> bool)
    requires IsSystemError(line) || IsBandwidthLimit(line)
    ensures Receive(s, line, accepts) == Reaction(DisconnectAbnormally(Traced(s, line), line), false)
  {
  }

  /** Once halted, every other line is only traced. */
  lemma ReceiveHalted(s: Conn, line: string, accepts: (Completion, string) -> bool)
    requires !IsSystemError(line) && !IsBandwidthLimit(line) && s.halt
    ensures Receive(s, line, accepts) == Reaction(Traced(s, line), false)
  {
  }

  /**
   * A capability line records the blank-separated words after `* CAPABILITY ` and counts the
   * login latch down, logged in or not, idling or not.
   */
  lemma ReceiveCapability(s: Conn, line: string, accepts: (Completion, string) -> bool)
    requires !IsSystemError(line) && !IsBandwidthLimit(line) && !s.halt
    requires IsCapability(line) && |line| > |CapabilityPrefix|
    ensures Receive(s, line, accepts) == Reaction(Traced(s, line).(capabilities := Some(Split(line[|CapabilityPrefix| + 1..])),
                                                                   loginComplete := CountDown(s.loginComplete)), false)
  {
  }

  /** `* CAPABILITY` with nothing after it makes the handler throw. */
  lemma ReceiveCapabilityFaults(s: Conn, line: string, accepts: (Completion, string) -> bool)
    requires !IsSystemError(line) && !IsBandwidthLimit(line) && !s.halt
    requires IsCapability(line) && |line| == |CapabilityPrefix|
    ensures Receive(s, line, accepts) == Fault(Traced(s, line), line)
  {
  }

  /** Before login any other line is a login result. */
  lemma ReceiveBeforeLogin(s: Conn, line: string, accepts: (Completion, string) -> bool)
    requires !IsSystemError(line) && !IsBandwidthLimit(line) && !s.halt && !IsCapability(line)
    requires !s.isLoggedIn
    ensures Receive(s, line, accepts) == Reaction(Login(Traced(s, line), line), false)
  {
  }

  /** While idling the line, lower-cased, goes to the IDLE branch. */
  lemma ReceiveIdling(s: Conn, line: string, accepts: (Completion, string) -> bool)
    requires !IsSystemError(line) && !IsBandwidthLimit(line) && !s.halt && !IsCapability(line)
    requires s.isLoggedIn && s.idling
    ensures Receive(s, line, accepts) == Idle(Traced(s, line), Lower(line), accepts)
  {
  }

  /** Otherwise the line, as received, goes to `complete`. */
  lemma ReceiveCompletes(s: Conn, line: string, accepts: (Completion, string) -> bool)
    requires !IsSystemError(line) && !IsBandwidthLimit(line) && !s.halt && !IsCapability(line)
    requires s.isLoggedIn && !s.idling
    ensures Receive(s, line, accepts) == Reaction(Complete(Traced(s, line), line, accepts), false)
  {
  }

  lemma TracedEvolves(s: Conn, line: string, r: Conn)
    requires Evolves(Traced(s, line), r)
    ensures Evolves(s, r)
    ensures Invariant(s) ==> |Traced(s, line).wireTrace| <= TraceLimit
  {
  }

  /**
   * Any inbound line keeps the history rules (the halt and login flags are never cleared,
   * calls and error records are only appended, at most the head completion is consumed, at
   * most one exit request per armed cycle) and the invariant (a bounded trace, a latch
   * within its permits, a disjoint push diff).
   */
  lemma ReceiveEvolves(s: Conn, line: string, accepts: (Completion, string) -> bool)
    ensures Evolves(s, Receive(s, line, accepts).conn)
    ensures Invariant(s) ==> Invariant(Receive(s, line, accepts).conn)
  {
    var t := Traced(s, line);
    if IsSystemError(line) || IsBandwidthLimit(line) {
      ReceiveFatal(s, line, accepts);
      TracedEvolves(s, line, DisconnectAbnormally(t, line));
    } else if s.halt {
      ReceiveHalted(s, line, accepts);
      TracedEvolves(s, line, t);
    } else if IsCapability(line) {
      if |line| == |CapabilityPrefix| {
        ReceiveCapabilityFaults(s, line, accepts);
        TracedEvolves(s, line, Fault(t, line).conn);
      } else {
        ReceiveCapability(s, line, accepts);
        var r := t.(capabilities := Some(Split(line[|CapabilityPrefix| + 1..])), loginComplete := CountDown(s.loginComplete));
        assert Evolves(t, r);
        TracedEvolves(s, line, r);
      }
    } else if !s.isLoggedIn {
      ReceiveBeforeLogin(s, line, accepts);
      TracedEvolves(s, line, Login(t, line));
    } else if s.idling {
      ReceiveIdling(s, line, accepts);
      IdleEvolves(t, Lower(line), accepts);
      TracedEvolves(s, line, Idle(t, Lower(line), accepts).conn);
    } else {
      ReceiveCompletes(s, line, accepts);
      TracedEvolves(s, line, Complete(t, line, accepts));
    }
  }

  /** Any inbound line keeps the invariant. */
  lemma ReceiveKeepsInvariant(s: Conn, line: string, accepts: (Completion, string) -> bool)
    requires Invariant(s)
    ensures Invariant(Receive(s, line, accepts).conn)
  {
    ReceiveEvolves(s, line, accepts);
  }

  // ---------------------------------------------------------------------------------------
  // complete
  // ---------------------------------------------------------------------------------------

  /**
   * The invalid-tag reply is recorded against the head completion, which stays pending, and
   * nobody is called.
   */
  lemma CompleteInvalidTag(s: Conn, line: string, accepts: (Completion, string) -> bool)
    requires EqualsIgnoreCase(line, InvalidTagLine)
    ensures var r := Complete(s, line, accepts);
      && r.completions == s.completions && r.events == s.events && r.idleAcknowledged == s.idleAcknowledged
      && r.errorStack == [WireError(Peek(s.completions), line, s.wireTrace)] + s.errorStack
  {
  }

  /**
   * With a completion pending, the line is offered to the head of the queue, and to nobody
   * else; the head leaves the queue exactly when it accepts the line.
   */
  lemma CompleteOffersHead(s: Conn, line: string, accepts: (Completion, string) -> bool)
    requires !EqualsIgnoreCase(line, InvalidTagLine) && s.completions != []
    ensures var r := Complete(s, line, accepts);
      && r.events == s.events + [CompletionComplete(s.completions[0], line)]
      && (accepts(s.completions[0], line) <==> r.completions == s.completions[1..])
      && (!accepts(s.completions[0], line) <==> r.completions == s.completions)
      && r.errorStack == s.errorStack && r.idleAcknowledged == s.idleAcknowledged
  {
    assert |s.completions[1..]| != |s.completions|;
  }

  /** With nothing pending, `+ idling` acknowledges IDLE and starts the idler, without error. */
  lemma CompleteIdleAcknowledged(s: Conn, line: string, accepts: (Completion, string) -> bool)
    requires !EqualsIgnoreCase(line, InvalidTagLine) && s.completions == [] && EqualsIgnoreCase(line, IdlingLine)
    ensures var r := Complete(s, line, accepts);
      && r.idleAcknowledged && r.events == s.events + [IdleStart] && r.errorStack == s.errorStack && r.completions == []
  {
  }

  /** With nothing pending, any other line is recorded as unmatched, and nobody is called. */
  lemma CompleteUnmatched(s: Conn, line: string, accepts: (Completion, string) -> bool)
    requires !EqualsIgnoreCase(line, InvalidTagLine) && s.completions == [] && !EqualsIgnoreCase(line, IdlingLine)
    ensures var r := Complete(s, line, accepts);
      && r.errorStack == [WireError(None, NoCompletionFound, s.wireTrace)] + s.errorStack
      && r.events == s.events && r.idleAcknowledged == s.idleAcknowledged && r.completions == []
  {
  }

  /**
   * Requests are answered in order: enqueuing a new completion behind a pending one does not
   * change what happens to the line, which still goes to the older one.
   */
  lemma EnqueueDoesNotOvertake(s: Conn, c: Completion, line: string, accepts: (Completion, string) -> bool)
    requires s.completions != []
    ensures Complete(Enqueue(s, c), line, accepts) == Enqueue(Complete(s, line, accepts), c)
  {
    var e := Enqueue(s, c);
    assert e.completions[0] == s.completions[0] && Peek(e.completions) == Peek(s.completions);
    if EqualsIgnoreCase(line, InvalidTagLine) {
      assert Complete(e, line, accepts) == Record(e, Peek(s.completions), line);
    } else {
      var head := s.completions[0];
      var asked := s.(events := s.events + [CompletionComplete(head, line)]);
      if accepts(head, line) {
        assert (s.completions + [c])[1..] == s.completions[1..] + [c];
        assert Complete(e, line, accepts) == asked.(completions := s.completions[1..] + [c]);
      } else {
        assert Complete(e, line, accepts) == asked.(completions := s.completions + [c]);
      }
    }
  }

  /** The error stack is last in, first out: `lastError` returns the record just pushed. */
  lemma LastErrorUndoesRecord(s: Conn, c: Option<Completion>, message: string)
    ensures LastError(Record(s, c, message)) == (Some(WireError(c, message, s.wireTrace)), s)
  {
    assert ([WireError(c, message, s.wireTrace)] + s.errorStack)[1..] == s.errorStack;
  }

  // ---------------------------------------------------------------------------------------
  // Login
  // ---------------------------------------------------------------------------------------

  /** A success reply is never also a NO or BAD reply. */
  lemma AuthOutcomesExclusive(line: string)
    requires IsAuthSuccess(line)
    ensures CommandFailed(line).None?
  {
    assert line[..|AuthPrefix|] == AuthPrefix;
    assert Lower(line[..5])[2] == 'o';
    if |line| >= 6 {
      assert Lower(line[..6])[2] == 'o';
    }
  }

  /** A success reply logs in and counts the latch down, and changes nothing else. */
  lemma LoginAccepted(s: Conn, line: string)
    requires IsAuthSuccess(line)
    ensures Login(s, line) == s.(isLoggedIn := true, loginComplete := CountDown(s.loginComplete))
  {
  }

  /**
   * A NO or BAD reply counts the latch down, records its reason, then records the whole line
   * against the head completion, which leaves the queue, halts and disconnects; the handler
   * stays logged out.
   */
  lemma LoginRejected(s: Conn, line: string)
    requires CommandFailed(line).Some?
    ensures Login(s, line) == s.(halt := true, loginComplete := CountDown(s.loginComplete),
      errorStack := [WireError(Peek(s.completions), line, s.wireTrace),
                     WireError(None, ExtractError(CommandFailed(line).value), s.wireTrace)] + s.errorStack,
      completions := if s.completions == [] then [] else s.completions[1..],
      events := s.events + [Disconnect])
  {
    if IsAuthSuccess(line) {
      AuthOutcomesExclusive(line);
    }
  }

  /** Any other line before login is ignored. */
  lemma LoginIgnores(s: Conn, line: string)
    requires !IsAuthSuccess(line) && CommandFailed(line).None?
    ensures Login(s, line) == s
  {
  }

  /** `awaitLogin` succeeds exactly when both permits are in, and then reports the login flag. */
  lemma AwaitLoginOutcome(s: Conn)
    ensures AwaitLogin(s).0.Ok? <==> s.loginComplete == 0
    ensures AwaitLogin(s).0 == Ok(true) <==> s.loginComplete == 0 && s.isLoggedIn
  {
  }

  // ---------------------------------------------------------------------------------------
  // Any sequence of lines
  // ---------------------------------------------------------------------------------------

  /**
   * What any sequence of lines may change: as for one line, except that any number of
   * completions may have left the front of the queue.
   */
  predicate History(s: Conn, r: Conn) {
    && (s.halt ==> r.halt)
    && (s.isLoggedIn ==> r.isLoggedIn)
    && r.loginComplete <= s.loginComplete
    && s.events <= r.events
    && IsSuffix(s.errorStack, r.errorStack)
    && IsSuffix(r.completions, s.completions)
    && (Armed(r) ==> Armed(s))
    && DoneCount(r.events) <= DoneCount(s.events) + (if Armed(s) && !Armed(r) then 1 else 0)
  }

  lemma HistoryStep(s: Conn, m: Conn, r: Conn)
    requires History(s, m) && Evolves(m, r)
    ensures History(s, r)
  {
    assert r.events[..|s.events|] == m.events[..|s.events|];
    assert IsSuffix(s.errorStack, r.errorStack) by {
      assert r.errorStack[|r.errorStack| - |m.errorStack|..][|m.errorStack| - |s.errorStack|..]
          == r.errorStack[|r.errorStack| - |s.errorStack|..];
    }
    if r.completions != m.completions {
      assert r.completions == s.completions[|s.completions| - |r.completions|..] by {
        assert m.completions[1..] == s.completions[|s.completions| - |m.completions|..][1..];
      }
    }
  }

  /**
   * Over any sequence of lines the handler never clears its halt or login flag, never winds
   * the login latch back, only appends collaborator calls and pushes error records, consumes
   * pending completions only from the front, and keeps its invariant.
   */
  lemma {:induction false} RunHistory(s: Conn, lines: seq<string>, accepts: (Completion, string) -> bool)
    ensures History(s, Run(s, lines, accepts))
    ensures Invariant(s) ==> Invariant(Run(s, lines, accepts))
    decreases |lines|
  {
    if lines != [] {
      var before := Run(s, lines[..|lines| - 1], accepts);
      RunHistory(s, lines[..|lines| - 1], accepts);
      ReceiveEvolves(before, lines[|lines| - 1], accepts);
      HistoryStep(s, before, Run(s, lines, accepts));
    }
  }

  /** Keeping the last `n` of a window and then adding one is adding one to the whole. */
  lemma LastNAppend<T>(xs: seq<T>, y: T, n: nat)
    requires n > 0
    ensures LastN(LastN(xs, n) + [y], n) == LastN(xs + [y], n)
  {
    if |xs| > n {
      assert (xs[|xs| - n..] + [y])[1..] == (xs + [y])[|xs| + 1 - n..];
    }
  }

  /** A run of lines followed by one more line. */
  lemma RunSnoc(s: Conn, lines: seq<string>, line: string, accepts: (Completion, string) -> bool)
    ensures Run(s, lines + [line], accepts) == Receive(Run(s, lines, accepts), line, accepts).conn
  {
    assert (lines + [line])[..|lines|] == lines;
  }

  /** One more line on top of a window of the latest lines is the window of one more line. */
  lemma TraceAddSlides(t: seq<string>, lines: seq<string>, w: seq<string>, w': seq<string>)
    requires lines != []
    requires w == LastN(t + lines[..|lines| - 1], TraceLimit) && w' == TraceAdd(w, lines[|lines| - 1])
    ensures w' == LastN(t + lines, TraceLimit)
  {
    var init, last := lines[..|lines| - 1], lines[|lines| - 1];
    LastNAppend(t + init, last, TraceLimit);
    assert t + lines == (t + init) + [last];
  }

  /** The trace after a run of lines is the trace after all but the last, with the last added. */
  lemma RunStepTrace(s: Conn, lines: seq<string>, accepts: (Completion, string) -> bool)
    requires lines != []
    ensures Run(s, lines, accepts).wireTrace == TraceAdd(Run(s, lines[..|lines| - 1], accepts).wireTrace, lines[|lines| - 1])
  {
  }

  /** If the trace after all lines but the last is their window, so is the trace after all of them. */
  lemma RunTraceStep(s: Conn, lines: seq<string>, accepts: (Completion, string) -> bool)
    requires lines != []
    requires Run(s, lines[..|lines| - 1], accepts).wireTrace == LastN(s.wireTrace + lines[..|lines| - 1], TraceLimit)
    ensures Run(s, lines, accepts).wireTrace == LastN(s.wireTrace + lines, TraceLimit)
  {
    RunStepTrace(s, lines, accepts);
    TraceAddSlides(s.wireTrace, lines, Run(s, lines[..|lines| - 1], accepts).wireTrace, Run(s, lines, accepts).wireTrace);
  }

  /** The wire trace always holds the latest lines received, at most 25 of them, in order. */
  lemma {:induction false} RunTraceIsLatest(s: Conn, lines: seq<string>, accepts: (Completion, string) -> bool)
    requires |s.wireTrace| <= TraceLimit
    ensures Run(s, lines, accepts).wireTrace == LastN(s.wireTrace + lines, TraceLimit)
    decreases |lines|
  {
    if lines == [] {
      assert s.wireTrace + lines == s.wireTrace;
    } else {
      RunTraceIsLatest(s, lines[..|lines| - 1], accepts);
      RunTraceStep(s, lines, accepts);
    }
  }

  /**
   * However many notifications arrive, the idler is asked to leave IDLE at most once per push
   * cycle, and never outside one.
   */
  lemma RunRequestsExitAtMostOnce(s: Conn, lines: seq<string>, accepts: (Completion, string) -> bool)
    ensures var r := Run(s, lines, accepts);
      s.events <= r.events && DoneCount(r.events[|s.events|..]) <= (if Armed(s) then 1 else 0)
  {
    var r := Run(s, lines, accepts);
    RunHistory(s, lines, accepts);
    assert r.events == s.events + r.events[|s.events|..];
    DoneCountAppend(s.events, r.events[|s.events|..]);
  }

  /** A fresh handler keeps its invariant and never asks the idler to leave IDLE before `observe`. */
  lemma RunFromInitial(lines: seq<string>, accepts: (Completion, string) -> bool)
    ensures Invariant(Run(Initial, lines, accepts))
    ensures forall i :: 0 <= i < |Run(Initial, lines, accepts).events| ==> !Run(Initial, lines, accepts).events[i].IdleDone?
  {
    RunHistory(Initial, lines, accepts);
    DoneCountNone(Run(Initial, lines, accepts).events);
  }

  lemma {:induction false} DoneCountNone(es: seq<Event>)
    requires DoneCount(es) == 0
    ensures forall i :: 0 <= i < |es| ==> !es[i].IdleDone?
    decreases |es|
  {
    if es != [] {
      DoneCountNone(es[..|es| - 1]);
      assert forall i :: 0 <= i < |es| - 1 ==> es[i] == es[..|es| - 1][i];
    }
  }

  // ---------------------------------------------------------------------------------------
  // Push-diff coalescing during IDLE
  // ---------------------------------------------------------------------------------------

  /** An EXISTS or EXPUNGE notification line, in any case, with a number `parseInt` accepts. */
  predicate IsNoticeLine(line: string) {
    (ExistsCount(Lower(line)).Some? || ExpungeCount(Lower(line)).Some?) && Announced(Lower(line)) <= IntMax
  }

  /** The message number a notification line is about. */
  function NoticeNumber(line: string): nat
    requires IsNoticeLine(line)
  {
    Announced(Lower(line))
  }

  /** The push diff after folding the notification lines into `d`, in order. */
  function NoteAll(d: PushDiff, lines: seq<string>): (r: PushDiff)
    requires forall i :: 0 <= i < |lines| ==> IsNoticeLine(lines[i])
    ensures r.idleExitSent == d.idleExitSent
    ensures d.pushAdds !! d.pushRemoves ==> r.pushAdds !! r.pushRemoves
  {
    if lines == [] then d
    else
      assert IsNoticeLine(lines[|lines| - 1]);
      Noted(NoteAll(d, lines[..|lines| - 1]), Lower(lines[|lines| - 1]))
  }

  /** What the last notification about message `k` says: `true` for EXISTS, `false` for EXPUNGE. */
  function LastSaid(lines: seq<string>, k: int): Option<bool>
    requires forall i :: 0 <= i < |lines| ==> IsNoticeLine(lines[i])
  {
    if lines == [] then None
    else
      var line := lines[|lines| - 1];
      if NoticeNumber(line) == k then Some(ExistsCount(Lower(line)).Some?) else LastSaid(lines[..|lines| - 1], k)
  }

  /**
   * The diff reports the net effect of a cycle: a message is added exactly when the last
   * notification about it was EXISTS, removed exactly when it was EXPUNGE, and left as it was
   * when there was none.
   */
  lemma {:induction false} NoteAllLastWins(d: PushDiff, lines: seq<string>, k: int)
    requires forall i :: 0 <= i < |lines| ==> IsNoticeLine(lines[i])
    ensures k in NoteAll(d, lines).pushAdds <==>
            LastSaid(lines, k) == Some(true) || (LastSaid(lines, k) == None && k in d.pushAdds)
    ensures k in NoteAll(d, lines).pushRemoves <==>
            LastSaid(lines, k) == Some(false) || (LastSaid(lines, k) == None && k in d.pushRemoves)
    decreases |lines|
  {
    if lines != [] {
      NoteAllLastWins(d, lines[..|lines| - 1], k);
    }
  }

  /** Folding a notification in does not look at, or change, whether the exit was requested. */
  lemma NotedIgnoresExitFlag(d: PushDiff, m: string, b: bool)
    requires ExistsCount(m).Some? || ExpungeCount(m).Some?
    ensures Noted(d.(idleExitSent := b), m) == Noted(d, m).(idleExitSent := b)
  {
  }

  /**
   * While idling, a run of EXISTS and EXPUNGE lines leaves the handler idling, logged in and
   * running, folds every notification into the push data, and marks the exit as requested as
   * soon as there was one.
   */
  lemma {:induction false} RunCoalescesNotifications(s: Conn, lines: seq<string>, accepts: (Completion, string) -> bool)
    requires s.isLoggedIn && s.idling && !s.halt && s.pushedData.Some?
    requires forall i :: 0 <= i < |lines| ==> IsNoticeLine(lines[i])
    ensures var r := Run(s, lines, accepts);
      && r.isLoggedIn && r.idling && !r.halt && r.observer == s.observer
      && r.pushedData == Some(NoteAll(s.pushedData.value, lines).(idleExitSent := s.pushedData.value.idleExitSent || lines != []))
    decreases |lines|
  {
    if lines != [] {
      var d := s.pushedData.value;
      var init, last := lines[..|lines| - 1], lines[|lines| - 1];
      var before := Run(s, init, accepts);
      RunCoalescesNotifications(s, init, accepts);
      var p := before.pushedData.value;
      assert p == NoteAll(d, init).(idleExitSent := d.idleExitSent || init != []);
      var m := Lower(last);
      NotificationIsNoControlLine(last);
      ReceiveIdling(before, last, accepts);
      var t := Traced(before, last);
      NotedIgnoresExitFlag(NoteAll(d, init), m, d.idleExitSent || init != []);
      assert NoteAll(d, lines) == Noted(NoteAll(d, init), m);
      if !p.idleExitSent {
        IdleNoticeRequestsExit(t, m, accepts);
      } else {
        IdleNoticeAfterExit(t, m, accepts);
      }
    }
  }

  /**
   * At the end of an IDLE cycle the observer is told the net effect of the cycle's
   * notifications, with `null` standing for no additions or no removals, and the cycle ends.
   */
  lemma IdleCycleReportsNetChange(s: Conn, lines: seq<string>, end: string, accepts: (Completion, string) -> bool)
    requires s.isLoggedIn && s.idling && !s.halt && s.pushedData.Some? && s.observer.Some?
    requires forall i :: 0 <= i < |lines| ==> IsNoticeLine(lines[i])
    requires !IsSystemError(end) && !IsBandwidthLimit(end) && !IsCapability(end) && IsIdleEnded(Lower(end))
    ensures var before := Run(s, lines, accepts);
      var diff := NoteAll(s.pushedData.value, lines);
      var r := Run(s, lines + [end], accepts);
      && r.events == before.events + [IdleEnd, Changed(s.observer.value, NullIfEmpty(diff.pushAdds), NullIfEmpty(diff.pushRemoves))]
      && !r.idling && !r.idleAcknowledged && r.pushedData.None?
  {
    var before := Run(s, lines, accepts);
    RunCoalescesNotifications(s, lines, accepts);
    RunSnoc(s, lines, end, accepts);
    ReceiveIdling(before, end, accepts);
    IdleEndedFlushes(Traced(before, end), Lower(end), accepts);
  }
}
