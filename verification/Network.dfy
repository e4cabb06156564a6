/** What can become of one call or statement sent to another process. */
module Network {
  datatype Delivery = Acked | LostReply | NotApplied
}
