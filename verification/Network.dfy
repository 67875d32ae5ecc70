/** What the network does with one call, for every client in the model. */
module Network {
  /** A request may be lost, or carried out without its reply arriving in time. */
  datatype Fate = Lost | NoReply | Replied
}
