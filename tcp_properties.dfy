/** What the stream loop guarantees over a whole run: exact byte accounting, where t0
    and t1 come from, when it stops, and when "no data" is reported. */
module TcpProperties {
  import opened Basics
  import opened Estimate
  import opened TcpStream

  /** Accounting: from read i to where the run stops, the total grows by exactly the
      bytes of the reads that returned data; t0 is taken from the first such read if
      nothing had been received yet, and t1 from the last one. A closing read changes
      nothing. */
  lemma {:induction false} RunAccounting(d: Int16, results: seq<Read>, i: nat, p: Progress)
    requires i <= |results| && Consistent(p)
    ensures var t := RunFrom(d, results, i, p);
      var seg := results[i..t.consumed];
      && t.final.total == p.total + Received(seg)
      && t.final.t0 == (if p.total == 0 then FirstStart(seg) else p.t0)
      && t.final.t1 == (if LastStamp(seg).Some? then LastStamp(seg) else p.t1)
    decreases |results| - i
  {
    if i < |results| {
      var t := RunFrom(d, results, i, p);
      var seg := results[i..t.consumed];
      var rd := results[i];
      assert seg[0] == rd;
      if rd.numbytes > 0 {
        var t0 := if p.total == 0 then rd.startStamp else p.t0.value;
        var next := Progress(p.total + rd.numbytes, Some(t0), Some(rd.stamp));
        if rd.stamp.sec - t0.sec > d {
          assert seg == [rd];
          assert seg[1..] == [];
        } else {
          assert t == RunFrom(d, results, i + 1, next);
          RunAccounting(d, results, i + 1, next);
          assert seg[1..] == results[i + 1..t.consumed];
        }
      } else {
        assert seg == [rd];
        assert seg[1..] == [];
      }
    }
  }

  /** Stopping rule: every read before the last one consumed returned data and was
      within the duration (whole seconds since t0), and so was every read of a run
      still waiting; a Closed run ends on a read of zero
      or fewer bytes, and an Overdue run on a data read whose t1 is more than the
      duration past t0. */
  lemma {:induction false} RunStops(d: Int16, results: seq<Read>, i: nat, p: Progress)
    requires i <= |results| && Consistent(p)
    ensures var t := RunFrom(d, results, i, p);
      && (forall j | i <= j < t.consumed - 1 ::
            IsPositive(results[j]) && t.final.t0.Some? && results[j].stamp.sec - t.final.t0.value.sec <= d)
      && (t.stop == StillWaiting ==> forall j | i <= j < t.consumed ::
            IsPositive(results[j]) && t.final.t0.Some? && results[j].stamp.sec - t.final.t0.value.sec <= d)
      && (t.stop == Closed ==> !IsPositive(results[t.consumed - 1]))
      && (t.stop == Overdue ==>
            && IsPositive(results[t.consumed - 1])
            && t.final.t1 == Some(results[t.consumed - 1].stamp)
            && t.final.t1.value.sec - t.final.t0.value.sec > d)
    decreases |results| - i
  {
    if i < |results| {
      var rd := results[i];
      if rd.numbytes > 0 {
        var t0 := if p.total == 0 then rd.startStamp else p.t0.value;
        var next := Progress(p.total + rd.numbytes, Some(t0), Some(rd.stamp));
        if rd.stamp.sec - t0.sec <= d {
          RunStops(d, results, i + 1, next);
          RunKeepsStart(d, results, i + 1, next);
        }
      }
    }
  }

  /** Once set, t0 is never changed again. */
  lemma {:induction false} RunKeepsStart(d: Int16, results: seq<Read>, i: nat, p: Progress)
    requires i <= |results| && Consistent(p) && p.total > 0
    ensures RunFrom(d, results, i, p).final.t0 == p.t0
    decreases |results| - i
  {
    if i < |results| && results[i].numbytes > 0 {
      var rd := results[i];
      var next := Progress(p.total + rd.numbytes, p.t0, Some(rd.stamp));
      if rd.stamp.sec - p.t0.value.sec <= d {
        RunKeepsStart(d, results, i + 1, next);
      }
    }
  }

  /** The whole loop from nothing received: the total is the sum of the data reads
      consumed, t0 and t1 come from the first and last of them, and once the loop has
      stopped it reports "no data" exactly when that sum is 0, and otherwise that sum
      over the interval from t0 to t1. */
  lemma LoopSummary(d: Int16, results: seq<Read>)
    ensures var t := RunFrom(d, results, 0, Start);
      var seg := results[..t.consumed];
      && t.final.total == Received(seg)
      && t.final.t0 == FirstStart(seg)
      && t.final.t1 == LastStamp(seg)
      && (StreamSummary(t) == Some(NoData) <==> t.stop != StillWaiting && Received(seg) == 0)
      && (StreamSummary(t).Some? && Received(seg) > 0 ==>
            StreamSummary(t).value ==
              Measured(Report(Received(seg),
                              IntervalUs(FirstStart(seg).value, LastStamp(seg).value) as real / 1_000_000.0)))
  {
    var t := RunFrom(d, results, 0, Start);
    RunAccounting(d, results, 0, Start);
    assert results[0..t.consumed] == results[..t.consumed];
  }

  /** The estimate of a measurement: it reports the bytes received, exists exactly
      when the interval from the first t0 reading to the last t1 reading is not zero,
      and is then those bytes, in megabits, over that interval; it is positive when the
      interval is. */
  lemma StreamEstimate(d: Int16, results: seq<Read>, r: Report)
    requires StreamSummary(RunFrom(d, results, 0, Start)) == Some(Measured(r))
    ensures var seg := results[..RunFrom(d, results, 0, Start).consumed];
      && r.bytes == Received(seg)
      && FirstStart(seg).Some? && LastStamp(seg).Some?
    ensures var seg := results[..RunFrom(d, results, 0, Start).consumed];
      var us := IntervalUs(FirstStart(seg).value, LastStamp(seg).value);
      && (EstimatedMbps(r).Some? <==> us != 0)
      && (EstimatedMbps(r).Some? ==>
            EstimatedMbps(r).value * (us as real / 1_000_000.0) == Received(seg) as real / 1_000_000.0 * 8.0)
      && (us > 0 ==> EstimatedMbps(r).value > 0.0)
  {
    LoopSummary(d, results);
  }

  /** main narrows a duration of 32768 seconds or more to a negative int16_t; the loop
      then stops as Overdue right after the first read that returns data (given a
      clock that does not run backwards between its two readings). */
  lemma LongDurationStopsAtFirstData(duration: Uint16, results: seq<Read>)
    requires duration >= 0x8000
    requires |results| > 0 && IsPositive(results[0])
    requires results[0].stamp.sec >= results[0].startStamp.sec
    ensures var t := RunFrom(ToInt16(duration), results, 0, Start);
      t.stop == Overdue && t.consumed == 1 && t.final.total == results[0].numbytes
  {
  }
}
