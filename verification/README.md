# GStreamer pipeline orchestration: a verified model

This project models the orchestration logic of a small GStreamer media
player and of a TCP audio receiver. The model covers three pieces:

- **The dynamic pad linker** (`pad_added_handler` in `gst1.c`). A
  `uridecodebin` source announces its output pads at run time. For each one,
  the handler looks at the name of the pad's caps. A `video/x-raw` pad is
  linked to the sink pad of the video queue, an `audio/x-raw` pad to the sink
  pad of the audio queue, and anything else is ignored. Once both queue sink
  pads are linked, further announcements are ignored. A failed link is only
  reported. On every exit path the handler releases the caps it obtained and
  both queue sink-pad references it took.
- **The bus reading loop** (`read_messages` in `gst1.c`). It pops the
  pipeline's bus, filtered to STATE_CHANGED, ERROR and EOS messages. It
  reports pipeline state changes, end of stream and errors (an absent debug
  string is printed as "none"). It releases every message it pops and stops
  after the first ERROR or EOS.
- **The bus watch** (`bus_call` in `TCPServer.c`). It quits the main loop on
  EOS and ERROR and ignores every other message. On ERROR it frees the parsed
  debug string and error. It always returns TRUE, so the watch stays
  installed.

Files:

- `wrappers.dfy`: `Option`, which stands for a possibly NULL pointer.
- `messages.dfy`: bus messages (`Message`), object identity (`Obj`),
  `GstState`, and the terminal-kind and filter predicates.
- `pad_linker.dfy`: queue sink pads and announced source pads as classes
  whose link flags and reference ledgers the handler updates. It also holds
  `gst_pad_link` as seen from the handler, the handler itself (the C
  `goto exit` is a `break` out of a labelled block), and a pure
  specification (`React`, `Run`) with lemmas over any sequence of
  announcements.
- `bus_reader.dfy`: the reading loop as a method over the sequence of pop
  results. It is proved equal to a transcript function. The transcript takes
  the per-message switch as a parameter. Lemmas state what the transcript
  does for any switch with given per-message properties, and
  `LoopReleasesAndFrees` applies them to the loop's own switch.
- `bus_watch.dfy`: the watch callback as a pure decision (`Dispatch`) and as
  a method acting on a `MainLoop` object.

The bus is modelled as the sequence of values that successive
`gst_bus_timed_pop_filtered` calls return, with `None` for a NULL pop. Each
message carries its source object, whose `id` stands for its address. The
code compares the source with the pipeline by address, so the model compares
ids. Printing, releasing and freeing are recorded, in order, as an effect
trace.

The code keeps no run state beyond a `terminate` flag, and neither does the
model. A NULL pop leaves `terminate` unchanged, and the loop pops again. The
recognised caps prefixes are `video/x-raw` and `audio/x-raw`.

## Model

| member | source | states |
|---|---|---|
| PadLinker.Classify | gst1.c:116-139 | A pad is offered to the video queue exactly when its caps name starts with `video/x-raw`, to the audio queue exactly when it starts with `audio/x-raw`, and to neither otherwise. |
| PadLinker.React | gst1.c:105-139 | One handler run: if both queue sink pads are linked, the outcome is "already linked" and nothing changes. Otherwise a pad of neither raw type is ignored, and its own caps type is reported. Otherwise a link to the classified queue is attempted. It succeeds exactly when that queue is unlinked and the pair is linkable. A queue is linked afterwards exactly when it was before or this run linked it. |
| PadLinker.RunOutcomeCount | gst1.c:95-149 | Over a sequence of announcements, the handler produces exactly one outcome per announcement. |
| PadLinker.RunNeverUnlinks | gst1.c:116-134 | Over any sequence of announcements, a queue sink pad that is linked stays linked. |
| PadLinker.RunLinksAtMostOnce | gst1.c:105-134 | Over any sequence of announcements, the number of successful links to a queue is 1 if it went from unlinked to linked, and 0 otherwise. So no queue is ever linked twice. |
| PadLinker.RunOffersByType | gst1.c:116-139 | In any sequence, every attempted link goes to the queue that the pad's caps name selects. A pad of neither raw type never causes a link attempt. |
| PadLinker.RunWhenCompleteIsNoOp | gst1.c:105-109 | Once both queue sink pads are linked, every further announcement reports "already linked" and changes no link state. |
| PadLinker.SinkPad.Ref | gst1.c:96-97 | `gst_element_get_static_pad` takes one reference on the queue sink pad and leaves its link state alone. |
| PadLinker.SinkPad.Unref | gst1.c:146-148 | `gst_object_unref` releases one reference on the queue sink pad. |
| PadLinker.SourcePad.GetCurrentCapsType | gst1.c:111-114 | Getting the current caps takes one caps reference and yields the caps' structure name. |
| PadLinker.SourcePad.UnrefCaps | gst1.c:142-144 | `gst_caps_unref` releases one caps reference. |
| PadLinker.PadLink | gst1.c:118-131 | `gst_pad_link` as the handler sees it: a link fails exactly when either pad is already linked or the formats are incompatible. On success both pads become linked; on failure neither changes. No reference count changes. |
| PadLinker.PadAdded | gst1.c:95-149 | The handler's new link state and outcome are those of `React`, with "linkable" meaning that the new pad was unlinked and the formats were compatible. The new pad is linked afterwards exactly when it was before or this run linked it. Each queue sink pad gets exactly one reference taken and one released. The caps are taken and released exactly once, except when both queues were already linked; then they are never obtained. Ledgers that were balanced before the call are balanced after it. |
| BusReader.Handle | gst1.c:164-194 | Per message: an ERROR has four effects. First it reports the source element's name with the error text, then the debug string (or "none" when there is none), in that order. An EOS reports only "End-Of-Stream reached.". A STATE_CHANGED from the pipeline reports only its old and new states. ERROR and EOS and nothing else set terminate. Only ERROR clears the GError and frees the debug string. An ERROR without a debug string prints "none". A STATE_CHANGED prints nothing exactly when its source is not the pipeline. Any other kind prints "Unexpected message received." and nothing else. |
| BusReader.HandleReleasesNothingPrintsFirst | gst1.c:164-194 | The switch itself releases no message, and within one message every print comes before any free: the GError's text is read before `g_clear_error`. |
| BusReader.HandleCounts | gst1.c:165-193 | Per message, the GError is cleared and the debug string freed exactly once for an ERROR and never otherwise. A STATE_CHANGED, ERROR or EOS never reaches the "unexpected" branch. |
| BusReader.DispatchMessage | gst1.c:164-194 | The imperative switch prints, frees and sets `terminate` exactly as `Handle` says. |
| BusReader.ReadMessages | gst1.c:151-198 | The loop stops exactly after the first ERROR or EOS, and no later pop is made. If the bus holds no terminal message, every pop is consumed without terminating. The effects are the ordered transcript of the pops made, each message handled by the switch and then released. |
| BusReader.UnrefExactlyOnce | gst1.c:160-196 | For any switch that releases nothing itself, each popped message is released exactly once in the transcript. A NULL pop or a position beyond the pops made is never released. |
| BusReader.FreedOncePerMatch | gst1.c:160-196 | For any switch that performs an action once for each message of some kind and never otherwise, the transcript performs it exactly once per popped message of that kind. |
| BusReader.FilteredNeverUnexpected | gst1.c:156-196 | If the switch reports none of the first n popped messages as unexpected, the transcript of those n pops never prints "Unexpected message received.". |
| BusReader.TranscriptExtends | gst1.c:155-197 | Reports appear in pop order: the transcript of the first k pops is a prefix of the transcript of the first n. |
| BusReader.LoopReleasesAndFrees | gst1.c:155-197 | For the loop's own switch, over any bus: each popped message is released exactly once and nothing else is released. The GError and the debug string are each freed exactly as many times as ERROR messages were popped. When every message among the first n pops passes the STATE_CHANGED, ERROR and EOS filter, the transcript of those n pops never prints "Unexpected message received.". |
| BusReader.StateChangeThenEos | gst1.c:175-189 | Bus [foreign state change, pipeline state change, EOS, EOS]: only the pipeline's change is reported, then end of stream. The loop stops after three pops, and each popped message is released. |
| BusReader.ErrorWithDebug | gst1.c:165-174 | Bus [ERROR with debug string "debug-XYZ", EOS]: both the error text and the debug string are reported, the GError and the debug string are freed, the message is released, and the EOS after it is never popped. |
| BusReader.ErrorWithoutDebug | gst1.c:165-174 | Bus [NULL, ERROR without debug]: the NULL pop has no effect. The error is reported with debug text "none", the GError and the debug string are freed, and the message is released. |
| BusWatch.Dispatch | TCPServer.c:3-32 | Every message kind keeps the watch installed. The main loop is quit exactly on EOS and ERROR, once, as the last action. An EOS prints "End of stream" and then quits the loop, and does nothing else. Every other message has no effect. The debug string and the GError are freed exactly on ERROR. An ERROR has exactly four effects and prints its error text; nothing else is printed. |
| BusWatch.ErrorFreedOnceBeforeQuit | TCPServer.c:14-25 | On ERROR, the debug string and the GError are each freed exactly once and before the loop is quit, and the error text is printed before the GError is freed. |
| BusWatch.MainLoop.Quit | TCPServer.c:24 | `g_main_loop_quit` stops the loop from running. |
| BusWatch.BusCall | TCPServer.c:3-32 | The callback's effects and return value are those of `Dispatch`. The loop keeps running exactly when it was running and the message is neither EOS nor ERROR. |

## Left out

- `main` in `gst1.c` (lines 26-92): element creation, adding to the bin, static chain linking, setting the URI, connecting the signal, the change to PLAYING and teardown. These are calls into GStreamer, whose results the model cannot see.
- The second `main` in `gst1.c` (lines 200-207): platform glue. It clashes with the first `main` and calls an undefined `tutorial_main`.
- `main` in `TCPServer.c` (lines 35-52): TCP transport, pipeline parsing, ALSA output and running the GLib main loop. These are I/O and an event loop.
- `gst_simplepipeline.py` is not part of this model. It builds a fixed V4L2-to-X-video pipeline and makes no decisions.
- The "Received new pad ... from ..." line that the handler prints first on every call (gst1.c:103) is not recorded. The handler's outcome records the branch message that follows it.
- PadLinker.PadAdded: it assumes the new pad has current caps. The code dereferences the caps without a NULL check (gst1.c:112-114), so it has no defined behaviour there.
- Caps negotiation inside `gst_pad_link` is a boolean parameter (`compatible`), not format logic. The other reason a link fails, that a pad is already linked, is modelled.
- BusReader.ReadMessages: an infinite-timeout pop blocks until a message arrives. The model's input is finite, so when it runs out before an ERROR or EOS the method returns with `terminate` false, where the source would block.
- The message filter of `gst_bus_timed_pop_filtered` is applied by GStreamer, not by the loop. The input is what the pops return, and `FilteredNeverUnexpected` states what the filter guarantees.
- The concurrent delivery of pad-added signals. Announcements are modelled as a sequence of calls, one after another.
- The text of the printed lines is represented by datatype constructors carrying their arguments, not by formatted strings. The name of a GstState is represented by the state itself. The lines printed to stdout (`g_print`) and to stderr (`g_printerr`) share one ordered effect trace, so the model does not say which stream a line goes to.
