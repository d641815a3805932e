/** Connections. */
module Clients {
  /** A connection's id; ids are handed out in order and never used again. */
  type ClientId = int
}
