/**
 * The GStreamer bus messages that both bus consumers (the polling loop of
 * gst1.c and the bus watch of TCPServer.c) look at.
 */
module Messages {
  import opened Wrappers

  /** A GStreamer object: `id` stands for its address, `name` for GST_OBJECT_NAME. */
  datatype Obj = Obj(id: nat, name: string)

  /** GstState. */
  datatype GstState = VoidPending | Null | Ready | Paused | Playing

  /**
   * A bus message as seen through GST_MESSAGE_TYPE and the matching
   * gst_message_parse_* call. An ERROR carries the GError's message and the
   * optional debug string; every other kind is `Other`.
   */
  datatype Message =
    | Error(src: Obj, message: string, debug: Option<string>)
    | Eos(src: Obj)
    | StateChanged(src: Obj, oldState: GstState, newState: GstState, pending: GstState)
    | Other(src: Obj, kind: string)

  /** The kinds after which both consumers stop: ERROR and EOS. */
  predicate IsTerminal(m: Message)
  {
    m.Error? || m.Eos?
  }

  /**
   * The filter gst1.c hands to gst_bus_timed_pop_filtered:
   * STATE_CHANGED | ERROR | EOS.
   */
  predicate PassesFilter(m: Message)
  {
    m.StateChanged? || m.Error? || m.Eos?
  }
}
