/** CPeerConnector: the target of a dial, and the errors a connector reports. */
module PeerConnector {
  import opened Bytes

  datatype Endpoint = Endpoint(host: seq<byte>, port: port)

  // CPeerConnector::emERROR, as far as slotError uses it
  const ERROR_CONNECTION_REFUSED := 1
  const ERROR_HOST_NOT_FOUND := 2
  const ERROR_NOT_ALLOWED := 4
  const ERROR_TIMEOUT := 5
  const ERROR_UNKNOWN := -1

  /** The socket errors that slotError tells apart. */
  datatype SocketError =
    | ConnectionRefusedError
    | RemoteHostClosedError
    | HostNotFoundError
    | SocketResourceError
    | SocketAccessError
    | SocketTimeoutError
    | OtherSocketError

  /** slotError: the error a connector reports for a socket error. */
  function SlotError(e: SocketError): int {
    match e
    case ConnectionRefusedError => ERROR_CONNECTION_REFUSED
    case RemoteHostClosedError => ERROR_UNKNOWN
    case HostNotFoundError => ERROR_HOST_NOT_FOUND
    case SocketResourceError => ERROR_UNKNOWN
    case SocketAccessError => ERROR_NOT_ALLOWED
    case SocketTimeoutError => ERROR_TIMEOUT
    case OtherSocketError => ERROR_UNKNOWN
  }
}
