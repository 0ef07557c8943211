/** The wire constants: packet type tags, control codes and defaults. */
module Constant {
  import opened Bytes

  /** Packet type tags (the one-byte PacketType enumeration). */
  const CUSTOM: byte := 0x63
  const SYSTEM: byte := 0x73

  /** Control codes the server sends: odd numbers. */
  const SERVER_CLIENT_ID_SEND: byte := 0x01
  const SERVER_HAS_STOPPED: byte := 0x03

  /** Control codes a client sends: even numbers. */
  const CLIENT_RECEIVED_ID_WELL: byte := 0x00
  const CLIENT_DISCONNECT_REQUEST: byte := 0x02

  /** The identifier of the server endpoint, never handed to a client. */
  const SERVER_ID: uint32 := 0
  const DEFAULT_PORT: uint32 := 12345
  const DEFAULT_READ_BUFFER_SIZE: uint32 := 1024

  /** The server's MaxConnection before the user sets one. */
  const DEFAULT_MAX_CONNECTION: uint32 := 5

  predicate IsServerInformation(code: byte) {
    code == SERVER_CLIENT_ID_SEND || code == SERVER_HAS_STOPPED
  }

  predicate IsClientInformation(code: byte) {
    code == CLIENT_RECEIVED_ID_WELL || code == CLIENT_DISCONNECT_REQUEST
  }

  /** The two code spaces are told apart by parity, so no code belongs to both. */
  lemma CodeSpacesDisjoint(code: byte)
    ensures IsServerInformation(code) ==> code % 2 == 1
    ensures IsClientInformation(code) ==> code % 2 == 0
    ensures !(IsServerInformation(code) && IsClientInformation(code))
  {
  }
}
