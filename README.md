# Bandwidth-estimator receiver, modelled in Dafny

This project models the receiving side of a point-to-point bandwidth measurement
tool (`bw_estimation_recv.c`). The receiver asks a remote sender for a timed data
stream, collects it, and reports the bytes received over the first-to-last data
interval.

- `basics.dfy` (`Basics`): an Option type, the C integer widths that matter
  (uint8_t, uint16_t, int16_t), and the narrowing from `main`'s uint16_t values to the
  loops' int16_t parameters. It also holds the compile-time constants
  `NEW_SESSION_TIMEOUT`, `DEFAULT_TIMEOUT`, `RETRANSMISSION_THRESHOLD` and
  `MAX_PAYLOAD_LEN` as a `Constants` parameter, because their header is not part of
  this model.
- `udp_session.dfy` (`UdpSession`): the datagram loop `networkLoopUdp`.
  - `Step` is one iteration: a wait that timed out, or a received packet that already
    carries its type, its length and its kernel timestamp.
  - `RunFrom` and `Session` run `Step` over a finite sequence of such events.
  - `NetworkLoopUdp` is the imperative `while` loop over the same events. It keeps the
    source's variables (`state`, `consecutiveRetrans`, `totalNumberBytes`, `t0`, `t1`)
    and is proved equal to `Session`.
- `udp_properties.dfy` (`UdpProperties`): lemmas over whole runs of the datagram loop:
  accounting, the retransmission bound, the timeout armed before each wait, how the
  loop ends, handshake failure, and the summary.
- `tcp_stream.dfy` (`TcpStream`) and `tcp_properties.dfy` (`TcpProperties`): the same
  for the stream loop `networkLoopTcp`, over a finite sequence of read results.
- `estimate.dfy` (`Estimate`): the bandwidth estimate, as exact reals.
- `arguments.dfy` (`Arguments`): the argument checks in `main`.

When the events or reads run out before the loop ends, a run is `Pending` or
`StillWaiting`. The C loop would still be blocked in `select` at that point.

Where a behaviour could be read two ways, the model follows the code:
- `consecutiveRetrans` is only ever incremented and is never reset.
- The total adds the whole `recvmsg` return value, header included.
- SENDER_FULL ends the loop like END_SESSION. `main` then returns 0, so the process
  exits successfully.
- The payload-length limit is checked for both transports.

## Model

| member | source | states |
|---|---|---|
| `Basics.ToInt16` | bw_estimation_recv.c:116-117 | `main`'s uint16_t value becomes an int16_t parameter. The value is kept modulo 2^16 and is negative exactly when it is 32768 or more. |
| `UdpSession.WaitSeconds` | bw_estimation_recv.c:175-182 | The wait lasts NEW_SESSION_TIMEOUT while STARTING. Otherwise it lasts the larger of the duration and DEFAULT_TIMEOUT: at least both, and equal to one of them. |
| `UdpSession.Increment` | bw_estimation_recv.c:196 | `++` on the uint8_t counter is one more, modulo 256. |
| `UdpSession.Step` | bw_estimation_recv.c:186-228 | One iteration. The state leaves STARTING only on a DATA packet and never goes back. A timeout while STARTING aborts exactly when the counter equals the threshold; otherwise it retransmits. The counter changes only on a retransmission, by one, and stays within the threshold. The loop finishes, with its state unchanged, exactly on a timeout while RECEIVING, END_SESSION or SENDER_FULL. DATA adds the whole length, sets t1, and sets t0 if it is the first. Nothing else touches the total or the timestamps. Any other packet type leaves everything unchanged. |
| `UdpSession.DataBytes` | bw_estimation_recv.c:219 | Sums the lengths of the DATA packets. A positive sum implies that some DATA packet exists. |
| `UdpSession.FirstDataStamp` | bw_estimation_recv.c:213-216 | Gives the stamp of the first DATA packet, or None exactly when there is no DATA packet. |
| `UdpSession.LastDataStamp` | bw_estimation_recv.c:218 | Gives the stamp of the last DATA packet, or None exactly when there is no DATA packet. |
| `UdpSession.RunFrom` | bw_estimation_recv.c:173-231 | The loop consumes at most the events it is given. It arms one timeout per event consumed. It stops before the events run out only on a terminal step. It never reports a failed initial send. |
| `UdpSession.Session` | bw_estimation_recv.c:165-171 | A failed first NEW_SESSION send ends in failure, and only that ends in `Failed(SendFailed)`. |
| `UdpSession.IntervalNs` | bw_estimation_recv.c:234 | The integer nanosecond interval, read as seconds, equals the source's `(t1.sec - t0.sec) + (t1.nsec - t0.nsec)/1e9` computed exactly. |
| `UdpSession.SessionReport` | bw_estimation_recv.c:233-238 | A summary exists only for a loop that ended normally with a positive total, and it reports that total. |
| `UdpSession.SendBufferAsWritten` | bw_estimation_recv.c:196-203 | As written, after any received packet the retransmission passes `msg` as `recvmsg` left it. That is the whole buffer, MAX_PAYLOAD_LEN bytes long, whose first bytes are the last packet received (its type and length), plus that packet's timestamp control message. It still holds the NEW_SESSION request exactly when nothing was received. |
| `UdpSession.NetworkLoopUdp` | bw_estimation_recv.c:116-241 | The imperative loop computes exactly `Session`. It attempts one `sendmsg` for the first request plus one per retransmission, and each is given the NEW_SESSION request. Its summary is `SessionReport`. |
| `UdpProperties.RunAccounting` | bw_estimation_recv.c:205-219 | Over the events consumed, the total grows by exactly the DATA lengths. t1 becomes the last DATA stamp. t0 becomes the first DATA stamp if the run was STARTING. The state is RECEIVING once any DATA has arrived. |
| `UdpProperties.RunRetransmissions` | bw_estimation_recv.c:191-198 | A counter within the threshold stays within it. When the threshold fits in a uint8_t, the counter equals the number of retransmissions sent. |
| `UdpProperties.RunWaits` | bw_estimation_recv.c:175-182 | The timeout armed before each event is NEW_SESSION_TIMEOUT until a DATA packet has been seen, and max(duration, DEFAULT_TIMEOUT) after that. |
| `UdpProperties.RunEnds` | bw_estimation_recv.c:186-228 | No END_SESSION or SENDER_FULL packet is passed over: none comes before the last event consumed, and a run still waiting has consumed none. Each outcome is caused by the last event consumed: END_SESSION, SENDER_FULL, a timeout while RECEIVING, or a timeout while STARTING with the counter at the threshold. |
| `UdpProperties.UnansweredRequestFails` | bw_estimation_recv.c:191-198 | From STARTING with the counter at c, consecutive timeouts give threshold - c retransmissions, then failure on the next timeout. |
| `UdpProperties.UnreachableThresholdNeverAborts` | bw_estimation_recv.c:191 | With a threshold above 255, the uint8_t counter never reaches it and the loop never aborts. |
| `UdpProperties.SessionSummary` | bw_estimation_recv.c:233-238 | For a whole session, the total is the sum of the DATA lengths and t0 and t1 are the first and last DATA stamps. The counter stays within the threshold. A summary is printed exactly when the loop ended normally with a positive total, and it reports that total over the first-to-last interval. |
| `UdpProperties.SessionEstimate` | bw_estimation_recv.c:233-236 | A printed summary reports the DATA bytes consumed. Its estimate exists exactly when the first-to-last DATA interval is not zero. The estimate times that interval is those bytes / 10^6 × 8, and it is positive when the interval is. |
| `UdpProperties.HandshakeFailure` | bw_estimation_recv.c:191-193 | Threshold + 1 unanswered waits give failure after exactly threshold retransmissions, with no summary. |
| `UdpProperties.RetransmissionAfterStrayPacket` | bw_estimation_recv.c:196-203 | Take one packet of an unknown type, then a timeout. The loop retransmits, but as written it passes `msg` as `recvmsg` left it: the whole buffer starting with the received packet, plus that packet's timestamp control message. The request is not re-sent. |
| `UdpProperties.LongDurationWaitsDefault` | bw_estimation_recv.c:180 | A duration of 32768 s or more turns negative on narrowing, so the receiving wait is DEFAULT_TIMEOUT. |
| `Estimate.EstimatedMbps` | bw_estimation_recv.c:235 | The estimate exists exactly when the interval is non-zero, and estimate × interval = bytes / 10^6 × 8. |
| `Estimate.OneMegabyteInOneSecond` | bw_estimation_recv.c:106 | 1,000,000 bytes in 1 s is 8 Mbit/s. |
| `TcpStream.Received` | bw_estimation_recv.c:98 | Sums the bytes of the reads that returned data. The sum is positive exactly when such a read exists. |
| `TcpStream.FirstStart` | bw_estimation_recv.c:92-93 | Gives the t0 clock reading of the first data read, or None exactly when there is no data read. |
| `TcpStream.LastStamp` | bw_estimation_recv.c:95 | Gives the t1 clock reading of the last data read, or None exactly when there is no data read. |
| `TcpStream.RunFrom` | bw_estimation_recv.c:78-102 | The loop consumes at most the reads it is given. t0 and t1 are set exactly when bytes have been received. It stops before the reads run out only on a closing or overdue read. |
| `TcpStream.IntervalUs` | bw_estimation_recv.c:105 | The integer microsecond interval, read as seconds, equals the source's `(t1.sec - t0.sec) + (t1.usec - t0.usec)/1e6` computed exactly. |
| `TcpStream.StreamSummary` | bw_estimation_recv.c:104-111 | A stopped loop reports "no data" exactly when its total is 0, and otherwise reports a measurement. |
| `TcpStream.NetworkLoopTcp` | bw_estimation_recv.c:47-114 | The imperative loop computes exactly `RunFrom` from nothing received, and its summary is `StreamSummary`. |
| `TcpProperties.RunAccounting` | bw_estimation_recv.c:87-98 | The total grows by exactly the bytes of the data reads. t0 comes from the first data read if nothing had been received yet. t1 comes from the last data read. A closing read changes nothing. |
| `TcpProperties.RunStops` | bw_estimation_recv.c:87-101 | Every read before the last one consumed returned data and was within the duration, and so was every read of a run still waiting. A closed run ends on a read of ≤ 0 bytes. An overdue run ends on a data read whose t1 is more than the duration past t0. |
| `TcpProperties.RunKeepsStart` | bw_estimation_recv.c:92-93 | Once bytes have been received, t0 never changes. |
| `TcpProperties.LoopSummary` | bw_estimation_recv.c:104-111 | From nothing received, the total, t0 and t1 are the sum, the first t0 reading and the last t1 reading of the data reads. "No data" is reported exactly when that sum is 0. Otherwise the report is that sum over t0 to t1. |
| `TcpProperties.StreamEstimate` | bw_estimation_recv.c:104-107 | A measurement reports the bytes received. Its estimate exists exactly when the interval from the first t0 reading to the last t1 reading is not zero. The estimate times that interval is those bytes / 10^6 × 8, and it is positive when the interval is. |
| `TcpProperties.LongDurationStopsAtFirstData` | bw_estimation_recv.c:100 | A duration of 32768 s or more turns negative on narrowing, so the loop stops as overdue right after the first data read. |
| `Arguments.CheckOptions` | bw_estimation_recv.c:353-366 | Options are accepted exactly when the duration is non-zero, all three addresses are present, UDP also has a non-zero bandwidth and payload length, and the payload length is at most MAX_PAYLOAD_LEN. An over-long payload on otherwise complete options gets its own rejection. Everything else gets the usage rejection. |

## Left out

- Sockets, `select`, `sendmsg` and `recvmsg`: they are replaced by sequences of events or read results. A packet's `kind` is whatever `hdr->type` reads in `buf`. For a datagram too short to hold a header, that is the previous packet's type: a zero-length datagram after DATA counts as DATA with 0 bytes and moves t1. The event sequence is expected to record it that way. A `recvmsg` error on the datagram path is not modelled. In the source, `buf` then still holds the previous datagram, and the loop dispatches on that stale type: only if it is DATA is the -1 added to the size_t total and t1 re-read from the old control buffer; otherwise the error takes whichever branch the stale type selects, for example "Unkown" while the request is still in `buf`.
- Ancillary-data parsing (`CMSG_FIRSTHDR`, `SO_TIMESTAMPNS`): every DATA event carries its kernel stamp. The source's use of an uninitialised `recvTime` when no timestamp is attached is not modelled.
- The wire layout of the NEW_SESSION request and of the packet header: their header is not part of this model, so the request is an abstract record.
- Address resolution, binding and connecting (`fillSenderAddr`, `bind_local`, `connect`, `inet_ntop`), and `close`: these are plain socket-API wrappers.
- `getopt`/`atoi` parsing, `usage`, opening the output file, and all printing, including the per-packet log lines.
- Floating point: the interval and the estimate are exact reals. Double rounding and `%.2f` formatting are not modelled.
- Estimate.EstimatedMbps: gives no value for a zero interval, where the source divides by 0.0.
- The size_t total never overflows in the model, because it is unbounded.
- UdpSession.SendBufferAsWritten: records the leftover timestamp control message but not what the kernel does with it. A send carrying SCM_TIMESTAMPNS is most likely refused, and the source ignores the error.
- NetworkLoopUdp: the datagrams it attempts are always the NEW_SESSION request. Whether a `sendmsg` succeeds is not recorded. This is the corrected behaviour. The source's behaviour after a stray packet is `SendBufferAsWritten`, see Findings. The retransmission's destination, which `recvmsg` also overwrites, is not modelled.

## Findings

| source | as written | input that shows it | evidently intended | confidence | as-written member | corrected member |
|---|---|---|---|---|---|---|
| bw_estimation_recv.c:196-203 | The request and every received packet share `buf` and `msg`. `recvmsg` is given `iov_len = sizeof(buf)`, and the retransmission re-sends `msg` unchanged. So after a packet of an unrecognised type arrives while STARTING, a retransmission re-sends `msg` as `recvmsg` left it: the whole MAX_PAYLOAD_LEN-byte buffer, starting with that packet, plus that packet's SO_TIMESTAMPNS control message in `cmsg_buf`. Linux likely refuses that send, and the error is ignored. Either way, the NEW_SESSION request is not re-sent. | One packet of unknown type (40 bytes), then a timeout, with a threshold above 0. | Every retransmission re-sends the NEW_SESSION request. | not executed; high, from reading the code | `UdpSession.SendBufferAsWritten`, `UdpProperties.RetransmissionAfterStrayPacket` | `UdpSession.NetworkLoopUdp` |
