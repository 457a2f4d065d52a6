/** The datagram receive loop (`networkLoopUdp`): send one NEW_SESSION request,
    then wait for packets with a state-dependent timeout, retransmitting the request
    on silence while STARTING, accumulating DATA packets, and ending on END_SESSION,
    SENDER_FULL or silence after data. Sockets are replaced by a finite sequence of
    events, each either the expiry of the wait or a packet that already carries its
    type, its length and its kernel receive timestamp. */
module UdpSession {
  import opened Basics
  import opened Estimate

  /** struct timespec: seconds and nanoseconds. */
  datatype Timespec = Timespec(sec: int, nsec: int)

  /** The `type` field of the received header. */
  datatype PacketType = NewSession | Data | EndSession | SenderFull | Unknown(code: int)

  /** What one iteration of the loop observes: the wait timed out, or a datagram of
      `numbytes` bytes (header included) arrived, stamped `stamp` by the kernel. */
  datatype Event =
    | Timeout
    | Packet(kind: PacketType, numbytes: nat, stamp: Timespec)

  /** bwrecv_state. */
  datatype Phase = Starting | Receiving

  /** The loop's variables: state, consecutiveRetrans, totalNumberBytes, t0 and t1
      (None while the C variable is still uninitialised). */
  datatype Loop = Loop(phase: Phase, retrans: Uint8, total: nat, t0: Option<Timespec>, t1: Option<Timespec>)

  const Init: Loop := Loop(Starting, 0, 0, None, None)

  /** The NEW_SESSION request, as an abstract record (its wire layout is not modelled). */
  datatype Request = Request(duration: Int16, bandwidth: Int16, payloadLen: Int16)

  /** Why the loop ended normally. */
  datatype Finish = Silence | EndOfSession | SenderIsFull

  /** What one iteration decides. */
  datatype Action = Continue | Retransmit | Finish(why: Finish) | Abort

  datatype StepResult = StepResult(action: Action, next: Loop)

  predicate IsData(e: Event) {
    e.Packet? && e.kind == Data
  }

  /** END_SESSION or SENDER_FULL. */
  predicate IsEnd(e: Event) {
    e.Packet? && (e.kind == EndSession || e.kind == SenderFull)
  }

  /** The seconds armed for the wait (tv.tv_sec): NEW_SESSION_TIMEOUT while STARTING,
      otherwise the larger of the requested duration and DEFAULT_TIMEOUT. */
  function WaitSeconds(k: Constants, duration: Int16, phase: Phase): (secs: int)
    ensures phase == Starting ==> secs == k.newSessionTimeout
    ensures phase == Receiving ==>
      secs >= duration && secs >= k.defaultTimeout && (secs == duration || secs == k.defaultTimeout)
  {
    if phase == Starting then k.newSessionTimeout
    else if duration > k.defaultTimeout then duration else k.defaultTimeout
  }

  /** `++` on a uint8_t: one more, wrapping from 255 to 0. */
  function Increment(x: Uint8): (r: Uint8)
    ensures r == (x + 1) % 0x100
  {
    if x == 0xFF then 0 else x + 1
  }

  /** One iteration of the loop. */
  function Step(k: Constants, s: Loop, e: Event): (r: StepResult)
    // the state leaves STARTING on the first DATA packet and never goes back
    ensures r.next.phase == if IsData(e) then Receiving else s.phase
    // silence while STARTING: abort at the threshold, otherwise retransmit
    ensures r.action == Abort <==>
      e.Timeout? && s.phase == Starting && s.retrans == k.retransmissionThreshold
    ensures r.action == Retransmit <==>
      e.Timeout? && s.phase == Starting && s.retrans != k.retransmissionThreshold
    // the counter moves only on a retransmission, by one (uint8_t arithmetic)
    ensures r.next.retrans == if r.action == Retransmit then Increment(s.retrans) else s.retrans
    ensures s.retrans <= k.retransmissionThreshold ==> r.next.retrans <= k.retransmissionThreshold
    // the loop ends on silence after data, END_SESSION or SENDER_FULL, keeping its state
    ensures r.action.Finish? <==> (e.Timeout? && s.phase == Receiving) || IsEnd(e)
    ensures r.action.Finish? ==> r.next == s
    // DATA accounting: the whole datagram length is added, t1 is its stamp, and t0 too if first
    ensures IsData(e) ==>
      && r.action == Continue
      && r.next.total == s.total + e.numbytes
      && r.next.t1 == Some(e.stamp)
      && r.next.t0 == (if s.phase == Starting then Some(e.stamp) else s.t0)
    ensures !IsData(e) ==> r.next.total == s.total && r.next.t0 == s.t0 && r.next.t1 == s.t1
    // any other packet type is ignored
    ensures e.Packet? && !IsData(e) && !IsEnd(e) ==> r == StepResult(Continue, s)
  {
    if e.Timeout? then
      match s.phase
      case Starting =>
        if s.retrans == k.retransmissionThreshold then StepResult(Abort, s)
        else StepResult(Retransmit, s.(retrans := Increment(s.retrans)))
      case Receiving => StepResult(Finish(Silence), s)
    else if e.kind == Data then
      var t0 := if s.phase == Starting then Some(e.stamp) else s.t0;
      StepResult(Continue, s.(phase := Receiving, t0 := t0, t1 := Some(e.stamp), total := s.total + e.numbytes))
    else if e.kind == EndSession then StepResult(Finish(EndOfSession), s)
    else if e.kind == SenderFull then StepResult(Finish(SenderIsFull), s)
    else StepResult(Continue, s)
  }

  // ---------------------------------------------------------------------------
  // Reference definitions over the events consumed

  /** Sum of the lengths of the DATA packets. */
  function DataBytes(evs: seq<Event>): (n: nat)
    ensures n > 0 ==> exists j | 0 <= j < |evs| :: IsData(evs[j])
  {
    if evs == [] then 0
    else (if IsData(evs[0]) then evs[0].numbytes else 0) + DataBytes(evs[1..])
  }

  /** Timestamp of the first DATA packet. */
  function FirstDataStamp(evs: seq<Event>): (r: Option<Timespec>)
    ensures r.None? <==> forall j | 0 <= j < |evs| :: !IsData(evs[j])
    ensures r.Some? ==> exists j | 0 <= j < |evs| ::
      IsData(evs[j]) && evs[j].stamp == r.value && forall l | 0 <= l < j :: !IsData(evs[l])
  {
    if evs == [] then None
    else if IsData(evs[0]) then Some(evs[0].stamp)
    else
      var r := FirstDataStamp(evs[1..]);
      assert forall j | 1 <= j < |evs| :: evs[j] == evs[1..][j - 1];
      r
  }

  /** Timestamp of the last DATA packet. */
  function LastDataStamp(evs: seq<Event>): (r: Option<Timespec>)
    ensures r.None? <==> forall j | 0 <= j < |evs| :: !IsData(evs[j])
    ensures r.Some? ==> exists j | 0 <= j < |evs| ::
      IsData(evs[j]) && evs[j].stamp == r.value && forall l | j < l < |evs| :: !IsData(evs[l])
  {
    if evs == [] then None
    else
      var rest := LastDataStamp(evs[1..]);
      assert forall j | 1 <= j < |evs| :: evs[j] == evs[1..][j - 1];
      if rest.Some? then rest
      else if IsData(evs[0]) then Some(evs[0].stamp)
      else None
  }

  // ---------------------------------------------------------------------------
  // The loop as a function of the events

  datatype Failure = SendFailed | NoReply

  /** Pending: the events ran out while the loop was still waiting. */
  datatype Outcome = Pending | Finished(why: Finish) | Failed(cause: Failure)

  /** The result of a run: how it ended, the loop variables at the end, how many
      events were consumed, how many retransmissions were attempted, and the timeout
      armed before each consumed event. */
  datatype Trace = Trace(outcome: Outcome, final: Loop, consumed: nat, resent: nat, waits: seq<int>)

  /** The loop from event i on, in state s, after `resent` retransmissions and with
      the timeouts armed so far. */
  function RunFrom(k: Constants, duration: Int16, events: seq<Event>, i: nat, s: Loop, resent: nat, waits: seq<int>): (t: Trace)
    requires i <= |events| && |waits| == i
    ensures i <= t.consumed <= |events|
    ensures |t.waits| == t.consumed && t.waits[..i] == waits
    ensures t.resent >= resent
    ensures t.outcome.Pending? ==> t.consumed == |events|
    ensures !t.outcome.Pending? ==> t.consumed > i && t.outcome != Failed(SendFailed)
    decreases |events| - i
  {
    if i == |events| then Trace(Pending, s, i, resent, waits)
    else
      var w := waits + [WaitSeconds(k, duration, s.phase)];
      var r := Step(k, s, events[i]);
      match r.action
      case Continue => RunFrom(k, duration, events, i + 1, r.next, resent, w)
      case Retransmit => RunFrom(k, duration, events, i + 1, r.next, resent + 1, w)
      case Finish(why) => Trace(Finished(why), r.next, i + 1, resent, w)
      case Abort => Trace(Failed(NoReply), r.next, i + 1, resent, w)
  }

  /** The whole session: if the first NEW_SESSION cannot be sent the process exits
      with failure before the loop; otherwise the loop runs from the initial state. */
  function Session(k: Constants, duration: Int16, sendOk: bool, events: seq<Event>): (t: Trace)
    ensures t.consumed <= |events| && |t.waits| == t.consumed
    ensures !sendOk <==> t.outcome == Failed(SendFailed)
  {
    if !sendOk then Trace(Failed(SendFailed), Init, 0, 0, [])
    else RunFrom(k, duration, events, 0, Init, 0, [])
  }

  /** The interval t1 - t0 in nanoseconds; as a real number of seconds it is exactly
      the value the source computes in double precision. */
  function IntervalNs(t0: Timespec, t1: Timespec): (ns: int)
    ensures ns as real / 1_000_000_000.0 ==
      (t1.sec - t0.sec) as real + (t1.nsec - t0.nsec) as real / 1_000_000_000.0
  {
    (t1.sec - t0.sec) * 1_000_000_000 + (t1.nsec - t0.nsec)
  }

  /** The summary printed after the loop: only when the loop ended normally and some
      bytes were received. */
  function SessionReport(t: Trace): (r: Option<Report>)
    ensures r.Some? ==> t.outcome.Finished? && r.value.bytes == t.final.total > 0
  {
    if t.outcome.Finished? && t.final.total > 0 && t.final.t0.Some? && t.final.t1.Some? then
      Some(Report(t.final.total, IntervalNs(t.final.t0.value, t.final.t1.value) as real / 1_000_000_000.0))
    else None
  }

  // ---------------------------------------------------------------------------
  // The send buffer as the source leaves it

  /** What `msg` describes when a retransmission is sent: the NEW_SESSION request, or
      `msg` as the last `recvmsg` left it. In the latter case the data is the whole
      `buf`, `length` bytes long, of which only the first `received` bytes are the
      packet of type `kind` (the rest is whatever earlier datagrams left there), and
      the control buffer still holds that packet's SO_TIMESTAMPNS message, `control`. */
  datatype Datagram =
    | SessionRequest(req: Request)
    | StaleBuffer(kind: PacketType, received: nat, length: nat, control: Timespec)

  /** As written, the request and every received packet share `buf`, `recvmsg` is
      given the whole buffer length in `iov_len`, which nothing restores, and it leaves
      the packet's timestamp in the shared control buffer; the retransmission passes
      `msg` to `sendmsg` unchanged, so after the events `evs` it describes the last
      packet received together with its timestamp control message, not the NEW_SESSION
      request. Whether the kernel accepts such a send is outside the model; either way
      the request is not re-sent. */
  function SendBufferAsWritten(k: Constants, req: Request, evs: seq<Event>): (d: Datagram)
    ensures d == SessionRequest(req) <==> forall j | 0 <= j < |evs| :: evs[j].Timeout?
    ensures d != SessionRequest(req) ==> exists j | 0 <= j < |evs| ::
      && evs[j].Packet?
      && d == StaleBuffer(evs[j].kind, evs[j].numbytes, k.maxPayloadLen, evs[j].stamp)
      && forall l | j < l < |evs| :: evs[l].Timeout?
  {
    if evs == [] then SessionRequest(req)
    else
      var last := evs[|evs| - 1];
      if last.Timeout? then
        var d := SendBufferAsWritten(k, req, evs[..|evs| - 1]);
        assert forall j | 0 <= j < |evs| - 1 :: evs[..|evs| - 1][j] == evs[j];
        d
      else StaleBuffer(last.kind, last.numbytes, k.maxPayloadLen, last.stamp)
  }

  // ---------------------------------------------------------------------------
  // The imperative loop

  /** networkLoopUdp: returns the run, what each `sendmsg` call is given (the first
      request, even when that send fails, and each retransmission, whose result the
      source ignores) and the summary. Every datagram attempted is the NEW_SESSION
      request; this corrects SendBufferAsWritten. */
  method NetworkLoopUdp(k: Constants, bandwidth: Int16, duration: Int16, payloadLen: Int16,
                        sendOk: bool, events: seq<Event>)
    returns (t: Trace, attempted: seq<Request>, report: Option<Report>)
    ensures t == Session(k, duration, sendOk, events)
    ensures |attempted| == 1 + t.resent
    ensures forall j | 0 <= j < |attempted| :: attempted[j] == Request(duration, bandwidth, payloadLen)
    ensures report == SessionReport(t)
  {
    var request := Request(duration, bandwidth, payloadLen);
    attempted := [request];
    if !sendOk {
      t := Trace(Failed(SendFailed), Init, 0, 0, []);
      report := None;
      return;
    }
    var state := Starting;
    var consecutiveRetrans: Uint8 := 0;
    var totalNumberBytes: nat := 0;
    var t0: Option<Timespec> := None;
    var t1: Option<Timespec> := None;
    var waits: seq<int> := [];
    var outcome := Pending;
    var i := 0;
    while i < |events| && outcome.Pending?
      invariant i <= |events| && |waits| == i && |attempted| >= 1
      invariant forall j | 0 <= j < |attempted| :: attempted[j] == request
      invariant RunFrom(k, duration, events, 0, Init, 0, []) ==
        var current := Loop(state, consecutiveRetrans, totalNumberBytes, t0, t1);
        if outcome.Pending? then RunFrom(k, duration, events, i, current, |attempted| - 1, waits)
        else Trace(outcome, current, i, |attempted| - 1, waits)
      decreases |events| - i
    {
      var timeout := WaitSeconds(k, duration, state);
      waits := waits + [timeout];
      match events[i] {
        case Timeout =>
          if state == Receiving {
            outcome := Finished(Silence);
          } else if consecutiveRetrans == k.retransmissionThreshold {
            outcome := Failed(NoReply);
          } else {
            consecutiveRetrans := Increment(consecutiveRetrans);
            attempted := attempted + [request];
          }
        case Packet(kind, numbytes, stamp) =>
          if kind == Data {
            if state == Starting {
              t0 := Some(stamp);
              state := Receiving;
            }
            t1 := Some(stamp);
            totalNumberBytes := totalNumberBytes + numbytes;
          } else if kind == EndSession {
            outcome := Finished(EndOfSession);
          } else if kind == SenderFull {
            outcome := Finished(SenderIsFull);
          }
      }
      i := i + 1;
    }
    t := Trace(outcome, Loop(state, consecutiveRetrans, totalNumberBytes, t0, t1), i, |attempted| - 1, waits);
    report := SessionReport(t);
  }
}
