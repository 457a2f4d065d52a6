/** The checks `main` applies to its parsed arguments before any network activity.
    Parsing itself (getopt, atoi) is not modelled: the numeric options arrive as the
    uint16_t values `main` stores, and each address option is present or missing. */
module Arguments {
  import opened Basics

  datatype Options = Options(
    bandwidth: Uint16,
    duration: Uint16,
    payloadLen: Uint16,
    srcIp: Option<string>,
    senderIp: Option<string>,
    senderPort: Option<string>,
    useTcp: bool)

  /** Accepted, or rejected with the usage text, or rejected for a payload length
      above MAX_PAYLOAD_LEN; both rejections exit with failure. */
  datatype Verdict = Accepted | Usage | PayloadTooLong

  /** The options the usage text requires for the chosen transport. */
  predicate Complete(o: Options) {
    && o.duration != 0
    && o.srcIp.Some? && o.senderIp.Some? && o.senderPort.Some?
    && (o.useTcp || (o.bandwidth != 0 && o.payloadLen != 0))
  }

  /** The three checks, in the source's order: missing duration or address, then
      missing UDP bandwidth or payload length, then the payload-length limit, which
      applies to both transports. */
  function CheckOptions(k: Constants, o: Options): (v: Verdict)
    ensures v == Accepted <==> Complete(o) && o.payloadLen <= k.maxPayloadLen
    ensures v == PayloadTooLong <==> Complete(o) && o.payloadLen > k.maxPayloadLen
    ensures v == Usage <==> !Complete(o)
  {
    if o.duration == 0 || o.srcIp.None? || o.senderIp.None? || o.senderPort.None? then Usage
    else if !o.useTcp && (o.bandwidth == 0 || o.payloadLen == 0) then Usage
    else if o.payloadLen > k.maxPayloadLen then PayloadTooLong
    else Accepted
  }
}
