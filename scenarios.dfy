/**
 * Concrete exchanges with the handler: a login, a rejected login, one IDLE cycle, an
 * unsolicited line and a fatal line after a disconnect.
 */
module Scenarios {
  import opened Wrappers
  import opened Lines
  import opened LineShapes
  import opened Connection
  import opened Properties

  /** `* CAPABILITY IMAP4rev1 IDLE` */
  const CapabilityLine := CapabilityPrefix + " IMAP4rev1 IDLE"
  /** `. OK user@example.com (Success)` */
  const AcceptedLine := AuthPrefix + "user" + "@" + "example.com" + AuthSuffix
  const RejectedLine := ". NO bad credentials"
  const ExistsLine := "* 3 exists"
  /** `. OK IDLE terminated (success)` */
  const IdleEndedLine := "." + IdleEndedTail
  const UnsolicitedLine := "* OK still here"
  const ByeLine := "* BYE System Error"

  // ---------------------------------------------------------------------------------------
  // How each line is classified
  // ---------------------------------------------------------------------------------------

  lemma CapabilityLineSplits()
    ensures IsCapability(CapabilityLine) && |CapabilityLine| > |CapabilityPrefix|
    ensures Split(CapabilityLine[|CapabilityPrefix| + 1..]) == ["IMAP4rev1", "IDLE"]
  {
    assert CapabilityLine[|CapabilityPrefix| + 1..] == Join(["IMAP4rev1", "IDLE"]);
    SplitJoin(["IMAP4rev1", "IDLE"]);
  }

  lemma CapabilityLineClassified()
    ensures !IsSystemError(CapabilityLine) && !IsBandwidthLimit(CapabilityLine)
    ensures IsCapability(CapabilityLine) && |CapabilityLine| > |CapabilityPrefix|
    ensures Split(CapabilityLine[|CapabilityPrefix| + 1..]) == ["IMAP4rev1", "IDLE"]
  {
    StarLineIsNotFatal(CapabilityLine);
    CapabilityLineSplits();
  }

  lemma AcceptedLineIsSuccess()
    ensures IsAuthSuccess(AcceptedLine)
  {
    assert NoLineTerminator("user") && NoLineTerminator("example.com");
    AuthSuccessAccepts("user", "example.com");
  }

  lemma AcceptedLineClassified()
    ensures !IsSystemError(AcceptedLine) && !IsBandwidthLimit(AcceptedLine) && !IsCapability(AcceptedLine)
    ensures IsAuthSuccess(AcceptedLine)
  {
    DotLineIsNoControlLine(AcceptedLine);
    AcceptedLineIsSuccess();
  }

  lemma RejectedLineFails()
    ensures CommandFailed(RejectedLine).Some? && ExtractError(CommandFailed(RejectedLine).value) == "bad credentials"
  {
    assert RejectedLine == ". " + "NO" + " " + "bad credentials" + "";
    CommandFailedReason("NO", "bad credentials", "");
  }

  lemma RejectedLineIsNoSuccess()
    ensures !IsAuthSuccess(RejectedLine)
  {
    assert AuthPrefix[2] == 'O' && RejectedLine[2] == 'N';
  }

  lemma RejectedLineClassified()
    ensures !IsSystemError(RejectedLine) && !IsBandwidthLimit(RejectedLine) && !IsCapability(RejectedLine)
    ensures !IsAuthSuccess(RejectedLine)
    ensures CommandFailed(RejectedLine).Some? && ExtractError(CommandFailed(RejectedLine).value) == "bad credentials"
  {
    DotLineIsNoControlLine(RejectedLine);
    RejectedLineIsNoSuccess();
    RejectedLineFails();
  }

  lemma ExistsLineClassified()
    ensures IsNoticeLine(ExistsLine) && ExistsCount(Lower(ExistsLine)) == Some(3)
  {
    assert Lower(ExistsLine) == ExistsLine;
    assert ExistsLine == "* " + Decimal(3) + ExistsWord + "";
    NotificationRoundTrip(3, ExistsWord, "");
  }

  lemma IdleEndedLineEnds()
    ensures IsIdleEnded(Lower(IdleEndedLine))
  {
    assert NoLineTerminator(".") && AllSpace("");
    assert IdleEndedLine == "." + IdleEndedTail + "";
    IdleEndedAccepts(".", IdleEndedTail, "");
  }

  lemma IdleEndedLineClassified()
    ensures !IsSystemError(IdleEndedLine) && !IsBandwidthLimit(IdleEndedLine) && !IsCapability(IdleEndedLine)
    ensures IsIdleEnded(Lower(IdleEndedLine))
  {
    DotLineIsNoControlLine(IdleEndedLine);
    IdleEndedLineEnds();
  }

  lemma UnsolicitedLineClassified()
    ensures !IsSystemError(UnsolicitedLine) && !IsBandwidthLimit(UnsolicitedLine) && !IsCapability(UnsolicitedLine)
    ensures !EqualsIgnoreCase(UnsolicitedLine, InvalidTagLine) && !EqualsIgnoreCase(UnsolicitedLine, IdlingLine)
  {
    assert CapabilityPrefix[2] != UnsolicitedLine[2];
    StarLineIsNotFatal(UnsolicitedLine);
    assert |Lower(UnsolicitedLine)| != |Lower(InvalidTagLine)| && |Lower(UnsolicitedLine)| != |Lower(IdlingLine)|;
  }

  lemma ByeLineClassified()
    ensures IsSystemError(ByeLine)
  {
    assert ByeLine == "*" + " " + "BYE" + " " + "System" + " " + "Error" + "";
    SystemErrorAccepts(" ", "BYE", " ", "System", " ", "Error", "");
  }

  // ---------------------------------------------------------------------------------------
  // Exchanges
  // ---------------------------------------------------------------------------------------

  /** The capability line records the capabilities and takes the first login permit. */
  lemma AfterCapabilities(accepts: (Completion, string) -> bool)
    ensures Run(Initial, [CapabilityLine], accepts)
         == Initial.(wireTrace := [CapabilityLine], capabilities := Some(["IMAP4rev1", "IDLE"]), loginComplete := 1)
  {
    CapabilityLineClassified();
    ReceiveCapability(Initial, CapabilityLine, accepts);
  }

  /** Capabilities, then any success reply, from a fresh handler. */
  lemma AcceptedLoginAfter(cap: string, acc: string, accepts: (Completion, string) -> bool)
    requires Run(Initial, [cap], accepts) == Initial.(wireTrace := [cap], capabilities := Some(["IMAP4rev1", "IDLE"]), loginComplete := 1)
    requires !IsSystemError(acc) && !IsBandwidthLimit(acc) && !IsCapability(acc) && IsAuthSuccess(acc)
    ensures var r := Run(Initial, [cap, acc], accepts);
      && r.capabilities == Some(["IMAP4rev1", "IDLE"]) && r.isLoggedIn && !r.halt
      && AwaitLogin(r) == (Ok(true), r) && r.errorStack == [] && r.events == []
      && r.wireTrace == [cap, acc]
  {
    var s1 := Run(Initial, [cap], accepts);
    RunSnoc(Initial, [cap], acc, accepts);
    assert [cap] + [acc] == [cap, acc];
    ReceiveBeforeLogin(s1, acc, accepts);
    var t := Traced(s1, acc);
    assert t.wireTrace == [cap, acc] && t.errorStack == [] && t.events == [] && t.loginComplete == 1;
    LoginAccepted(t, acc);
    var r := Login(t, acc);
    assert r.loginComplete == 0 && r.isLoggedIn;
  }

  /**
   * Capabilities, then a success reply: the capabilities are the advertised words, the
   * handler is logged in, and `awaitLogin` returns true without waiting.
   */
  lemma LoginExchange(accepts: (Completion, string) -> bool)
    ensures var r := Run(Initial, [CapabilityLine, AcceptedLine], accepts);
      && r.capabilities == Some(["IMAP4rev1", "IDLE"]) && r.isLoggedIn && !r.halt
      && AwaitLogin(r) == (Ok(true), r) && r.errorStack == [] && r.events == []
      && r.wireTrace == [CapabilityLine, AcceptedLine]
  {
    AfterCapabilities(accepts);
    AcceptedLineClassified();
    AcceptedLoginAfter(CapabilityLine, AcceptedLine, accepts);
  }

  /** Capabilities, then any NO or BAD reply, from a fresh handler. */
  lemma RejectedLoginAfter(cap: string, rej: string, accepts: (Completion, string) -> bool)
    requires Run(Initial, [cap], accepts) == Initial.(wireTrace := [cap], capabilities := Some(["IMAP4rev1", "IDLE"]), loginComplete := 1)
    requires !IsSystemError(rej) && !IsBandwidthLimit(rej) && !IsCapability(rej) && CommandFailed(rej).Some?
    ensures var r := Run(Initial, [cap, rej], accepts);
      && r.halt && !r.isLoggedIn && AwaitLogin(r) == (Ok(false), r)
      && r.errorStack == [WireError(None, rej, [cap, rej]), WireError(None, ExtractError(CommandFailed(rej).value), [cap, rej])]
      && r.events == [Disconnect]
  {
    var s1 := Run(Initial, [cap], accepts);
    RunSnoc(Initial, [cap], rej, accepts);
    assert [cap] + [rej] == [cap, rej];
    ReceiveBeforeLogin(s1, rej, accepts);
    var t := Traced(s1, rej);
    assert t.wireTrace == [cap, rej] && t.completions == [] && t.errorStack == [] && t.events == [];
    assert t.loginComplete == 1 && !t.isLoggedIn;
    LoginRejected(t, rej);
    var r := Login(t, rej);
    assert r.loginComplete == 0;
  }

  /**
   * Capabilities, then a NO reply: the handler halts and disconnects, stays logged out, and
   * `awaitLogin` returns false. Two records are pushed: the reason, then the whole line.
   */
  lemma RejectedLoginExchange(accepts: (Completion, string) -> bool)
    ensures var r := Run(Initial, [CapabilityLine, RejectedLine], accepts);
      var trace := [CapabilityLine, RejectedLine];
      && r.halt && !r.isLoggedIn && AwaitLogin(r) == (Ok(false), r)
      && r.errorStack == [WireError(None, RejectedLine, trace), WireError(None, "bad credentials", trace)]
      && r.events == [Disconnect]
  {
    AfterCapabilities(accepts);
    RejectedLineClassified();
    RejectedLoginAfter(CapabilityLine, RejectedLine, accepts);
  }

  /** While idling in an armed push cycle, a notification requests the exit from IDLE. */
  lemma NoticeStep(w: Conn, notice: string, accepts: (Completion, string) -> bool)
    requires w.isLoggedIn && !w.halt && w.idling && Armed(w)
    requires IsNoticeLine(notice)
    ensures Receive(w, notice, accepts).conn
         == Traced(w, notice).(pushedData := Some(Noted(w.pushedData.value, Lower(notice)).(idleExitSent := true)),
                               events := w.events + [IdleDone])
  {
    NotificationIsNoControlLine(notice);
    ReceiveIdling(w, notice, accepts);
    IdleNoticeRequestsExit(Traced(w, notice), Lower(notice), accepts);
  }

  /** While idling with push data and an observer, the end of IDLE flushes the diff. */
  lemma EndedStep(w: Conn, ended: string, accepts: (Completion, string) -> bool)
    requires w.isLoggedIn && !w.halt && w.idling && w.pushedData.Some? && w.observer.Some?
    requires !IsSystemError(ended) && !IsBandwidthLimit(ended) && !IsCapability(ended) && IsIdleEnded(Lower(ended))
    ensures var d := w.pushedData.value;
      Receive(w, ended, accepts).conn
         == Traced(w, ended).(idling := false, idleAcknowledged := false, pushedData := None,
                              events := w.events + [IdleEnd, Changed(w.observer.value, NullIfEmpty(d.pushAdds), NullIfEmpty(d.pushRemoves))])
  {
    ReceiveIdling(w, ended, accepts);
    IdleEndedFlushes(Traced(w, ended), Lower(ended), accepts);
  }

  /** A notification, then the end of IDLE, on a watched mailbox. */
  lemma IdleCycleOf(s: Conn, o: Observer, notice: string, ended: string, accepts: (Completion, string) -> bool)
    requires s.isLoggedIn && !s.halt
    requires IsNoticeLine(notice)
    requires !IsSystemError(ended) && !IsBandwidthLimit(ended) && !IsCapability(ended) && IsIdleEnded(Lower(ended))
    ensures var watching := Observe(s, Some(o)).(idling := true);
      var diff := Noted(PushDiff(false, {}, {}), Lower(notice));
      var r := Run(watching, [notice, ended], accepts);
      && r.events == s.events + [IdleDone, IdleEnd, Changed(o, NullIfEmpty(diff.pushAdds), NullIfEmpty(diff.pushRemoves))]
      && !r.idling && r.pushedData.None? && r.errorStack == s.errorStack && r.completions == s.completions
  {
    var watching := Observe(s, Some(o)).(idling := true);
    assert watching.pushedData == Some(PushDiff(false, {}, {})) && watching.events == s.events;
    var diff := Noted(PushDiff(false, {}, {}), Lower(notice));
    var s1 := Run(watching, [notice], accepts);
    RunSnoc(watching, [], notice, accepts);
    assert [] + [notice] == [notice];
    NoticeStep(watching, notice, accepts);
    assert s1.pushedData == Some(diff.(idleExitSent := true)) && s1.events == s.events + [IdleDone];
    assert s1.observer == Some(o) && s1.idling && s1.isLoggedIn && !s1.halt;
    var c := Changed(o, NullIfEmpty(diff.pushAdds), NullIfEmpty(diff.pushRemoves));
    var r := Run(watching, [notice, ended], accepts);
    RunSnoc(watching, [notice], ended, accepts);
    assert [notice] + [ended] == [notice, ended];
    EndedStep(s1, ended, accepts);
    assert r.events == s1.events + [IdleEnd, c];
    assert s1.events + [IdleEnd, c] == s.events + [IdleDone, IdleEnd, c];
  }

  /**
   * One IDLE cycle on a watched mailbox: `* 3 exists` requests the exit from IDLE, and the
   * IDLE-terminated reply reports message 3 as added and nothing as removed.
   */
  lemma IdleExchange(s: Conn, o: Observer, accepts: (Completion, string) -> bool)
    requires s.isLoggedIn && !s.halt
    ensures var watching := Observe(s, Some(o)).(idling := true);
      var r := Run(watching, [ExistsLine, IdleEndedLine], accepts);
      && r.events == s.events + [IdleDone, IdleEnd, Changed(o, Some({3}), None)]
      && !r.idling && r.pushedData.None? && r.errorStack == s.errorStack && r.completions == s.completions
  {
    ExistsLineClassified();
    IdleEndedLineClassified();
    IdleCycleOf(s, o, ExistsLine, IdleEndedLine, accepts);
    var diff := Noted(PushDiff(false, {}, {}), Lower(ExistsLine));
    assert diff.pushAdds == {3} && diff.pushRemoves == {};
  }

  /** An unsolicited line with nothing pending is recorded once, and nothing throws. */
  lemma UnsolicitedExchange(s: Conn, accepts: (Completion, string) -> bool)
    requires s.isLoggedIn && !s.idling && !s.halt && s.completions == []
    ensures var r := Receive(s, UnsolicitedLine, accepts);
      && !r.faulted && r.conn.events == s.events
      && r.conn.errorStack == [WireError(None, NoCompletionFound, r.conn.wireTrace)] + s.errorStack
  {
    UnsolicitedLineClassified();
    ReceiveCompletes(s, UnsolicitedLine, accepts);
    CompleteUnmatched(Traced(s, UnsolicitedLine), UnsolicitedLine, accepts);
  }

  /** `* BYE System Error` disconnects in any state, halted or not. */
  lemma ByeExchange(s: Conn, accepts: (Completion, string) -> bool)
    ensures var r := Receive(s, ByeLine, accepts);
      && !r.faulted && r.conn.halt && r.conn.events == s.events + [Disconnect]
      && r.conn.errorStack == [WireError(Peek(s.completions), ByeLine, r.conn.wireTrace)] + s.errorStack
  {
    ByeLineClassified();
    ReceiveFatal(s, ByeLine, accepts);
  }
}
