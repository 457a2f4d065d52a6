/** What the datagram loop guarantees over a whole run: exact byte accounting, first
    and last data timestamps, the retransmission bound, the timeout armed before each
    wait, the events that end the loop, and the summary. */
module UdpProperties {
  import opened Basics
  import opened Estimate
  import opened UdpSession

  /** Accounting: from event i to where the run stops, the total grows by exactly the
      lengths of the DATA packets consumed, t1 becomes the last DATA stamp, t0 the first
      one if the run was still STARTING, and the state is RECEIVING once any DATA came. */
  lemma {:induction false} RunAccounting(k: Constants, d: Int16, events: seq<Event>, i: nat, s: Loop, resent: nat, waits: seq<int>)
    requires i <= |events| && |waits| == i
    ensures var t := RunFrom(k, d, events, i, s, resent, waits);
      var seg := events[i..t.consumed];
      && t.final.total == s.total + DataBytes(seg)
      && t.final.phase == (if FirstDataStamp(seg).Some? then Receiving else s.phase)
      && t.final.t0 == (if s.phase == Starting && FirstDataStamp(seg).Some? then FirstDataStamp(seg) else s.t0)
      && t.final.t1 == (if LastDataStamp(seg).Some? then LastDataStamp(seg) else s.t1)
    decreases |events| - i
  {
    if i < |events| {
      var t := RunFrom(k, d, events, i, s, resent, waits);
      var w := waits + [WaitSeconds(k, d, s.phase)];
      var r := Step(k, s, events[i]);
      var seg := events[i..t.consumed];
      if r.action == Continue || r.action == Retransmit {
        var resent' := if r.action == Retransmit then resent + 1 else resent;
        assert t == RunFrom(k, d, events, i + 1, r.next, resent', w);
        RunAccounting(k, d, events, i + 1, r.next, resent', w);
        assert seg[0] == events[i] && seg[1..] == events[i + 1..t.consumed];
      } else {
        assert seg == [events[i]];
        assert seg[1..] == [];
      }
    }
  }

  /** Retransmission bound: a counter within the threshold stays within it; and when
      the threshold fits in a uint8_t, the counter is exactly the number of
      retransmissions sent (it is never reset and never wraps). */
  lemma {:induction false} RunRetransmissions(k: Constants, d: Int16, events: seq<Event>, i: nat, s: Loop, resent: nat, waits: seq<int>)
    requires i <= |events| && |waits| == i
    requires s.retrans <= k.retransmissionThreshold
    ensures var t := RunFrom(k, d, events, i, s, resent, waits);
      && t.final.retrans <= k.retransmissionThreshold
      && (k.retransmissionThreshold < 0x100 ==> t.final.retrans == s.retrans + (t.resent - resent))
    decreases |events| - i
  {
    if i < |events| {
      var w := waits + [WaitSeconds(k, d, s.phase)];
      var r := Step(k, s, events[i]);
      if r.action == Continue {
        RunRetransmissions(k, d, events, i + 1, r.next, resent, w);
      } else if r.action == Retransmit {
        RunRetransmissions(k, d, events, i + 1, r.next, resent + 1, w);
      }
    }
  }

  /** Timeout choice over a run: the wait armed before event j is NEW_SESSION_TIMEOUT
      until a DATA packet has been seen, and max(duration, DEFAULT_TIMEOUT) afterwards. */
  lemma {:induction false} RunWaits(k: Constants, d: Int16, events: seq<Event>, i: nat, s: Loop, resent: nat, waits: seq<int>)
    requires i <= |events| && |waits| == i
    ensures var t := RunFrom(k, d, events, i, s, resent, waits);
      forall j | i <= j < t.consumed ::
        t.waits[j] == WaitSeconds(k, d, if FirstDataStamp(events[i..j]).Some? then Receiving else s.phase)
    decreases |events| - i
  {
    if i < |events| {
      var t := RunFrom(k, d, events, i, s, resent, waits);
      var w := waits + [WaitSeconds(k, d, s.phase)];
      var r := Step(k, s, events[i]);
      assert t.waits[..i + 1] == w by {
        if r.action == Continue || r.action == Retransmit {
          var resent' := if r.action == Retransmit then resent + 1 else resent;
          assert t == RunFrom(k, d, events, i + 1, r.next, resent', w);
        }
      }
      assert t.waits[i] == w[i];
      assert events[i..i] == [];
      if r.action == Continue || r.action == Retransmit {
        var resent' := if r.action == Retransmit then resent + 1 else resent;
        RunWaits(k, d, events, i + 1, r.next, resent', w);
        forall j | i + 1 <= j < t.consumed
          ensures t.waits[j] == WaitSeconds(k, d, if FirstDataStamp(events[i..j]).Some? then Receiving else s.phase)
        {
          assert events[i..j][0] == events[i] && events[i..j][1..] == events[i + 1..j];
        }
      }
    }
  }

  /** Dispatch: no END_SESSION or SENDER_FULL packet is passed over (in a run still
      waiting, none was consumed at all), and each way of ending is caused by the last
      event consumed. */
  lemma {:induction false} RunEnds(k: Constants, d: Int16, events: seq<Event>, i: nat, s: Loop, resent: nat, waits: seq<int>)
    requires i <= |events| && |waits| == i
    ensures var t := RunFrom(k, d, events, i, s, resent, waits);
      && (forall j | i <= j < t.consumed - 1 :: !IsEnd(events[j]))
      && (t.outcome.Pending? ==> forall j | i <= j < t.consumed :: !IsEnd(events[j]))
      && (t.outcome == Finished(EndOfSession) ==> events[t.consumed - 1].Packet? && events[t.consumed - 1].kind == EndSession)
      && (t.outcome == Finished(SenderIsFull) ==> events[t.consumed - 1].Packet? && events[t.consumed - 1].kind == SenderFull)
      && (t.outcome == Finished(Silence) ==> events[t.consumed - 1].Timeout? && t.final.phase == Receiving)
      && (t.outcome == Failed(NoReply) ==>
            && events[t.consumed - 1].Timeout?
            && t.final.phase == Starting
            && t.final.retrans == k.retransmissionThreshold)
    decreases |events| - i
  {
    if i < |events| {
      var w := waits + [WaitSeconds(k, d, s.phase)];
      var r := Step(k, s, events[i]);
      if r.action == Continue {
        RunEnds(k, d, events, i + 1, r.next, resent, w);
      } else if r.action == Retransmit {
        RunEnds(k, d, events, i + 1, r.next, resent + 1, w);
      }
    }
  }

  /** A handshake nobody answers: from STARTING with the counter at c, enough
      consecutive timeouts make the loop retransmit threshold - c more times and then
      abort with failure on the next timeout. */
  lemma {:induction false} UnansweredRequestFails(k: Constants, d: Int16, events: seq<Event>, i: nat, s: Loop, resent: nat, waits: seq<int>)
    requires i <= |events| && |waits| == i
    requires s.phase == Starting && s.retrans <= k.retransmissionThreshold < 0x100
    requires |events| - i > k.retransmissionThreshold - s.retrans
    requires forall j | i <= j < |events| :: events[j] == Timeout
    ensures var t := RunFrom(k, d, events, i, s, resent, waits);
      && t.outcome == Failed(NoReply)
      && t.consumed == i + (k.retransmissionThreshold - s.retrans) + 1
      && t.resent == resent + (k.retransmissionThreshold - s.retrans)
    decreases k.retransmissionThreshold - s.retrans
  {
    var w := waits + [WaitSeconds(k, d, s.phase)];
    var r := Step(k, s, events[i]);
    if s.retrans != k.retransmissionThreshold {
      UnansweredRequestFails(k, d, events, i + 1, r.next, resent + 1, w);
    }
  }

  /** The counter is a uint8_t: with a threshold above 255 it can never equal the
      threshold, so the handshake is retransmitted for as long as nothing arrives and
      the loop never aborts. */
  lemma {:induction false} UnreachableThresholdNeverAborts(k: Constants, d: Int16, events: seq<Event>, i: nat, s: Loop, resent: nat, waits: seq<int>)
    requires i <= |events| && |waits| == i
    requires k.retransmissionThreshold >= 0x100
    ensures RunFrom(k, d, events, i, s, resent, waits).outcome != Failed(NoReply)
    decreases |events| - i
  {
    if i < |events| {
      var w := waits + [WaitSeconds(k, d, s.phase)];
      var r := Step(k, s, events[i]);
      if r.action == Continue {
        UnreachableThresholdNeverAborts(k, d, events, i + 1, r.next, resent, w);
      } else if r.action == Retransmit {
        UnreachableThresholdNeverAborts(k, d, events, i + 1, r.next, resent + 1, w);
      }
    }
  }

  /** A whole session from the initial state: the total is the sum of the DATA lengths
      consumed, t0 and t1 are the first and last DATA stamps, the counter stays within
      the threshold, and the summary is printed exactly when the loop ended normally
      with a positive total, reporting that total over the first-to-last interval. */
  lemma SessionSummary(k: Constants, d: Int16, sendOk: bool, events: seq<Event>)
    ensures var t := Session(k, d, sendOk, events);
      var seg := events[..t.consumed];
      && t.final.total == DataBytes(seg)
      && t.final.t0 == FirstDataStamp(seg)
      && t.final.t1 == LastDataStamp(seg)
      && t.final.retrans <= k.retransmissionThreshold
      && (SessionReport(t).Some? <==> t.outcome.Finished? && DataBytes(seg) > 0)
      && (SessionReport(t).Some? ==>
            SessionReport(t).value ==
              Report(DataBytes(seg),
                     IntervalNs(FirstDataStamp(seg).value, LastDataStamp(seg).value) as real / 1_000_000_000.0))
  {
    var t := Session(k, d, sendOk, events);
    if sendOk {
      RunAccounting(k, d, events, 0, Init, 0, []);
      RunRetransmissions(k, d, events, 0, Init, 0, []);
      assert events[0..t.consumed] == events[..t.consumed];
    }
  }

  /** The estimate of a printed summary: it reports the DATA bytes consumed, exists
      exactly when the first-to-last DATA interval is not zero, and is then those bytes,
      in megabits, over that interval; it is positive when the interval is. */
  lemma SessionEstimate(k: Constants, d: Int16, sendOk: bool, events: seq<Event>, r: Report)
    requires SessionReport(Session(k, d, sendOk, events)) == Some(r)
    ensures var seg := events[..Session(k, d, sendOk, events).consumed];
      && r.bytes == DataBytes(seg)
      && FirstDataStamp(seg).Some? && LastDataStamp(seg).Some?
    ensures var seg := events[..Session(k, d, sendOk, events).consumed];
      var ns := IntervalNs(FirstDataStamp(seg).value, LastDataStamp(seg).value);
      && (EstimatedMbps(r).Some? <==> ns != 0)
      && (EstimatedMbps(r).Some? ==>
            EstimatedMbps(r).value * (ns as real / 1_000_000_000.0) == DataBytes(seg) as real / 1_000_000.0 * 8.0)
      && (ns > 0 ==> EstimatedMbps(r).value > 0.0)
  {
    SessionSummary(k, d, sendOk, events);
  }

  /** Handshake failure: if the first RETRANSMISSION_THRESHOLD + 1 waits all time out,
      the session fails after exactly RETRANSMISSION_THRESHOLD retransmissions, with no
      summary. */
  lemma HandshakeFailure(k: Constants, d: Int16, events: seq<Event>)
    requires k.retransmissionThreshold < 0x100
    requires |events| > k.retransmissionThreshold
    requires forall j | 0 <= j <= k.retransmissionThreshold :: events[j] == Timeout
    ensures var t := Session(k, d, true, events);
      && t.outcome == Failed(NoReply)
      && t.consumed == k.retransmissionThreshold + 1
      && t.resent == k.retransmissionThreshold
      && SessionReport(t).None?
  {
    var prefix := events[..k.retransmissionThreshold + 1];
    UnansweredRequestFails(k, d, prefix, 0, Init, 0, []);
    SameRunOnLongerEvents(k, d, prefix, events, 0, Init, 0, []);
  }

  /** A run that stops within a prefix of the events does not depend on what follows. */
  lemma {:induction false} SameRunOnLongerEvents(k: Constants, d: Int16, prefix: seq<Event>, events: seq<Event>, i: nat, s: Loop, resent: nat, waits: seq<int>)
    requires i <= |prefix| <= |events| && |waits| == i
    requires prefix == events[..|prefix|]
    requires !RunFrom(k, d, prefix, i, s, resent, waits).outcome.Pending?
    ensures RunFrom(k, d, events, i, s, resent, waits) == RunFrom(k, d, prefix, i, s, resent, waits)
    decreases |prefix| - i
  {
    var w := waits + [WaitSeconds(k, d, s.phase)];
    assert prefix[i] == events[i];
    var r := Step(k, s, events[i]);
    if r.action == Continue {
      SameRunOnLongerEvents(k, d, prefix, events, i + 1, r.next, resent, w);
    } else if r.action == Retransmit {
      SameRunOnLongerEvents(k, d, prefix, events, i + 1, r.next, resent + 1, w);
    }
  }

  /** The retransmission as written: one packet of an unrecognised type while STARTING,
      then a timeout. The loop ignores the packet and retransmits, but what the source
      then sends is the whole buffer holding the received packet, not the NEW_SESSION
      request. */
  lemma RetransmissionAfterStrayPacket(k: Constants, d: Int16, req: Request)
    requires k.retransmissionThreshold > 0
    ensures var events := [Packet(Unknown(9), 40, Timespec(0, 0)), Timeout];
      var t := Session(k, d, true, events);
      && Step(k, Init, events[0]) == StepResult(Continue, Init)
      && Step(k, Init, events[1]).action == Retransmit
      && t.outcome == Pending && t.resent == 1
      && SendBufferAsWritten(k, req, events[..1]) == StaleBuffer(Unknown(9), 40, k.maxPayloadLen, Timespec(0, 0))
      && SendBufferAsWritten(k, req, events[..1]) != SessionRequest(req)
  {
  }

  /** main narrows a duration of 32768 seconds or more to a negative int16_t, so once
      data flows the loop waits only DEFAULT_TIMEOUT seconds, not the duration. */
  lemma LongDurationWaitsDefault(k: Constants, duration: Uint16)
    requires duration >= 0x8000
    ensures WaitSeconds(k, ToInt16(duration), Receiving) == k.defaultTimeout
  {
  }
}
