/**
 * The client's error taxonomy (src/client.rs:26-43).
 *
 * ConnectError, JoinError and MessageError are defined in modules this model
 * does not include; each is represented here by the description it carries.
 */
module Errors {

  /** A transport or upgrade failure while establishing the connection. */
  datatype ConnectError = ConnectError(reason: string)

  /** A failed write of a join envelope. */
  datatype JoinError = JoinError(reason: string)

  /** A frame that could not be decoded, or a failed read. */
  datatype MessageError = MessageError(reason: string)

  /** `ClientError`: what the client's own operations report. */
  datatype ClientError =
    | Connect(connectError: ConnectError)
    | Join(joinError: JoinError)
    | Thread(message: string)

  /** `From<ConnectError> for ClientError`: wraps the cause unchanged. */
  function FromConnectError(e: ConnectError): (r: ClientError)
    ensures r.Connect? && r.connectError == e
  {
    Connect(e)
  }

  /** `From<JoinError> for ClientError`: wraps the cause unchanged. */
  function FromJoinError(e: JoinError): (r: ClientError)
    ensures r.Join? && r.joinError == e
  {
    Join(e)
  }

  /** The two conversions are injective and never produce the same error. */
  lemma ConversionsDistinguishCauses(c1: ConnectError, c2: ConnectError, j1: JoinError, j2: JoinError)
    ensures FromConnectError(c1) == FromConnectError(c2) <==> c1 == c2
    ensures FromJoinError(j1) == FromJoinError(j2) <==> j1 == j2
    ensures FromConnectError(c1) != FromJoinError(j1)
    ensures !FromConnectError(c1).Thread? && !FromJoinError(j1).Thread?
  {
  }
}
