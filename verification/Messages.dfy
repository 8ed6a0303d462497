/** The one-byte messages, and the two decoders of the host library. */
module Messages {
  import opened Bytes

  const GOOD_SIG: byte := 0x20
  const GOOD_PASS: byte := 0x21
  const READY_4_PASS: byte := 0x22

  const BLAKE2_ERROR: byte := 0x10
  const MALFORMED_SIG: byte := 0x12
  const INVALID_SIG: byte := 0x13
  const BAD_PUBKEY: byte := 0x14

  const TPM_REFUSED_TO_SIGN: byte := 0x90
  const DO_NOTHING: byte := 0x91
  const TPM_SIGNED: byte := 0x97
  const DECRYPTION_ERROR: byte := 0x98
  const DECRYPTION_SUCCESS: byte := 0x99

  datatype ClientMessage =
    | GoodSig | GoodPass | Ready4pass
    | Blake2 | PassLen | MalformedSig | InvalidSig | BadPubkey | IOError | UnknownError

  function DecodeClient(b: byte): ClientMessage {
    if b == 0x20 then GoodSig
    else if b == 0x21 then GoodPass
    else if b == 0x22 then Ready4pass
    else if b == 0x10 then Blake2
    else if b == 0x11 then PassLen
    else if b == 0x12 then MalformedSig
    else if b == 0x13 then InvalidSig
    else if b == 0x14 then BadPubkey
    else if b == 0x15 then IOError
    else UnknownError
  }

  datatype HostMessage = DecryptionSuccess | TpmSigned | DecryptionError | TpmRefusedToSign | UnknownHostMessage

  function DecodeHost(b: byte): HostMessage {
    if b == 0x99 then DecryptionSuccess
    else if b == 0x97 then TpmSigned
    else if b == 0x98 then DecryptionError
    else if b == 0x90 then TpmRefusedToSign
    else UnknownHostMessage
  }
}
