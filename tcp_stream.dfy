/** The stream receive loop (`networkLoopTcp`): read until the peer closes the
    connection (a read of zero or fewer bytes) or until the whole seconds elapsed since
    the first byte exceed the requested duration, timestamping each read with the
    application's clock. The socket and the clock are replaced by a finite sequence of
    reads, each carrying recvmsg's return value and the clock readings the loop takes
    after it. */
module TcpStream {
  import opened Basics
  import opened Estimate

  /** struct timeval: seconds and microseconds. */
  datatype Timeval = Timeval(sec: int, usec: int)

  /** One pass of the loop: recvmsg returned `numbytes`; `startStamp` is what the clock
      gives for t0 (the source reads it only while nothing has been received yet) and
      `stamp` what it gives for t1 just after. */
  datatype Read = Read(numbytes: int, startStamp: Timeval, stamp: Timeval)

  /** totalNumberBytes, t0 and t1 (None while the C variable is uninitialised). */
  datatype Progress = Progress(total: nat, t0: Option<Timeval>, t1: Option<Timeval>)

  const Start: Progress := Progress(0, None, None)

  /** Both timestamps are set exactly when some byte has been received. */
  predicate Consistent(p: Progress) {
    (p.total == 0 <==> p.t0.None?) && (p.t0.None? <==> p.t1.None?)
  }

  /** Why the loop stopped; StillWaiting: the reads ran out while it was blocked. */
  datatype Stop = StillWaiting | Closed | Overdue

  datatype Trace = Trace(stop: Stop, final: Progress, consumed: nat)

  predicate IsPositive(rd: Read) {
    rd.numbytes > 0
  }

  // ---------------------------------------------------------------------------
  // Reference definitions over the reads consumed

  /** Bytes delivered by the reads that returned data. */
  function Received(rs: seq<Read>): (n: nat)
    ensures n > 0 ==> exists j | 0 <= j < |rs| :: IsPositive(rs[j])
    ensures (exists j | 0 <= j < |rs| :: IsPositive(rs[j])) ==> n > 0
  {
    if rs == [] then 0
    else
      var n := Received(rs[1..]);
      assert forall j | 1 <= j < |rs| :: rs[j] == rs[1..][j - 1];
      (if IsPositive(rs[0]) then rs[0].numbytes else 0) + n
  }

  /** The t0 clock reading of the first read that returned data. */
  function FirstStart(rs: seq<Read>): (r: Option<Timeval>)
    ensures r.None? <==> forall j | 0 <= j < |rs| :: !IsPositive(rs[j])
    ensures r.Some? ==> exists j | 0 <= j < |rs| ::
      IsPositive(rs[j]) && rs[j].startStamp == r.value && forall l | 0 <= l < j :: !IsPositive(rs[l])
  {
    if rs == [] then None
    else if IsPositive(rs[0]) then Some(rs[0].startStamp)
    else
      var r := FirstStart(rs[1..]);
      assert forall j | 1 <= j < |rs| :: rs[j] == rs[1..][j - 1];
      r
  }

  /** The t1 clock reading of the last read that returned data. */
  function LastStamp(rs: seq<Read>): (r: Option<Timeval>)
    ensures r.None? <==> forall j | 0 <= j < |rs| :: !IsPositive(rs[j])
    ensures r.Some? ==> exists j | 0 <= j < |rs| ::
      IsPositive(rs[j]) && rs[j].stamp == r.value && forall l | j < l < |rs| :: !IsPositive(rs[l])
  {
    if rs == [] then None
    else
      var rest := LastStamp(rs[1..]);
      assert forall j | 1 <= j < |rs| :: rs[j] == rs[1..][j - 1];
      if rest.Some? then rest
      else if IsPositive(rs[0]) then Some(rs[0].stamp)
      else None
  }

  // ---------------------------------------------------------------------------
  // The loop as a function of the reads

  /** The loop from read i on, with progress p so far. */
  function RunFrom(duration: Int16, results: seq<Read>, i: nat, p: Progress): (t: Trace)
    requires i <= |results| && Consistent(p)
    ensures i <= t.consumed <= |results| && Consistent(t.final)
    ensures t.stop == StillWaiting ==> t.consumed == |results|
    ensures t.stop != StillWaiting ==> t.consumed > i
    decreases |results| - i
  {
    if i == |results| then Trace(StillWaiting, p, i)
    else
      var rd := results[i];
      if rd.numbytes <= 0 then Trace(Closed, p, i + 1)
      else
        var t0 := if p.total == 0 then rd.startStamp else p.t0.value;
        var next := Progress(p.total + rd.numbytes, Some(t0), Some(rd.stamp));
        if rd.stamp.sec - t0.sec > duration then Trace(Overdue, next, i + 1)
        else RunFrom(duration, results, i + 1, next)
  }

  /** The interval t1 - t0 in microseconds; as a real number of seconds it is exactly
      the value the source computes in double precision. */
  function IntervalUs(t0: Timeval, t1: Timeval): (us: int)
    ensures us as real / 1_000_000.0 ==
      (t1.sec - t0.sec) as real + (t1.usec - t0.usec) as real / 1_000_000.0
  {
    (t1.sec - t0.sec) * 1_000_000 + (t1.usec - t0.usec)
  }

  /** The line printed after the loop. */
  datatype Summary = NoData | Measured(report: Report)

  /** The summary of a loop that has stopped: the measurement when bytes were received,
      the "no data" message otherwise. */
  function StreamSummary(t: Trace): (r: Option<Summary>)
    requires Consistent(t.final)
    ensures r.None? <==> t.stop == StillWaiting
    ensures r == Some(NoData) <==> t.stop != StillWaiting && t.final.total == 0
  {
    if t.stop == StillWaiting then None
    else if t.final.total == 0 then Some(NoData)
    else Some(Measured(Report(t.final.total, IntervalUs(t.final.t0.value, t.final.t1.value) as real / 1_000_000.0)))
  }

  // ---------------------------------------------------------------------------
  // The imperative loop

  /** networkLoopTcp: returns the run and, once the loop has stopped, the summary. */
  method NetworkLoopTcp(duration: Int16, results: seq<Read>) returns (t: Trace, summary: Option<Summary>)
    ensures t == RunFrom(duration, results, 0, Start)
    ensures summary == StreamSummary(t)
  {
    var totalNumberBytes: nat := 0;
    var t0: Option<Timeval> := None;
    var t1: Option<Timeval> := None;
    var stop := StillWaiting;
    var i := 0;
    while i < |results| && stop == StillWaiting
      invariant i <= |results| && Consistent(Progress(totalNumberBytes, t0, t1))
      invariant RunFrom(duration, results, 0, Start) ==
        var current := Progress(totalNumberBytes, t0, t1);
        if stop == StillWaiting then RunFrom(duration, results, i, current)
        else Trace(stop, current, i)
      decreases |results| - i
    {
      var numbytes := results[i].numbytes;
      if numbytes <= 0 {
        stop := Closed;
      } else {
        if totalNumberBytes == 0 {
          t0 := Some(results[i].startStamp);
        }
        t1 := Some(results[i].stamp);
        totalNumberBytes := totalNumberBytes + numbytes;
        if t1.value.sec - t0.value.sec > duration {
          stop := Overdue;
        }
      }
      i := i + 1;
    }
    t := Trace(stop, Progress(totalNumberBytes, t0, t1), i);
    summary := StreamSummary(t);
  }
}
