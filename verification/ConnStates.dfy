/** The states of a connection, as TcpConnection.hpp names them. */
module ConnStates {
  datatype ConnState = Connecting | Connected | Disconnecting | Disconnected
}
