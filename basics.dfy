/** Shared vocabulary of the receiver: an Option type, the C integer widths that
    matter to the model, and the compile-time constants of the receiver, which are
    parameters here because the header that defines them is not part of this model. */
module Basics {

  datatype Option<+T> = None | Some(value: T)

  /** uint8_t, the type of the retransmission counter. */
  type Uint8 = x: int | 0 <= x < 0x100

  /** uint16_t, the type `main` parses the numeric arguments into. */
  type Uint16 = x: int | 0 <= x < 0x1_0000

  /** int16_t, the type of the loops' `duration`, `bandwidth` and `payloadLen` parameters. */
  type Int16 = x: int | -0x8000 <= x < 0x8000

  /** The conversion that happens when `main` passes a uint16_t value to an int16_t
      parameter (two's complement): the value is kept modulo 2^16, and the upper half
      of the unsigned range becomes negative. */
  function ToInt16(x: Uint16): (r: Int16)
    ensures r % 0x1_0000 == x
    ensures r < 0 <==> x >= 0x8000
  {
    if x < 0x8000 then x else x - 0x1_0000
  }

  /** NEW_SESSION_TIMEOUT and DEFAULT_TIMEOUT (seconds), RETRANSMISSION_THRESHOLD and
      MAX_PAYLOAD_LEN (bytes). */
  datatype Constants = Constants(
    newSessionTimeout: nat,
    defaultTimeout: nat,
    retransmissionThreshold: nat,
    maxPayloadLen: nat)
}
