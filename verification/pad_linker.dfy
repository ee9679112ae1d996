/**
 * The pad-added handler of gst1.c: each time the uridecodebin source
 * announces a new source pad, the handler classifies the pad by the name of
 * its caps and links it to the sink pad of the audio or the video queue,
 * never linking a queue twice, and releases on every exit path the
 * references it took.
 */
module PadLinker {
  import opened Wrappers

  /** The caps-name prefixes the handler recognises. */
  const VideoRawPrefix: string := "video/x-raw"
  const AudioRawPrefix: string := "audio/x-raw"

  /** g_str_has_prefix. */
  predicate HasPrefix(s: string, prefix: string)
  {
    |prefix| <= |s| && s[..|prefix|] == prefix
  }

  /** The two consumers: the sink pads of `audio_queue` and `video_queue`. */
  datatype Queue = AudioQueue | VideoQueue

  /** Which queue a pad whose caps are named `padType` is offered to, if any. */
  function Classify(padType: string): (q: Option<Queue>)
    ensures q == Some(VideoQueue) <==> HasPrefix(padType, VideoRawPrefix)
    ensures q == Some(AudioQueue) <==> HasPrefix(padType, AudioRawPrefix)
    ensures q == None <==> !HasPrefix(padType, VideoRawPrefix) && !HasPrefix(padType, AudioRawPrefix)
  {
    if HasPrefix(padType, VideoRawPrefix) then
      assert padType[0] == 'v';
      Some(VideoQueue)
    else if HasPrefix(padType, AudioRawPrefix) then
      Some(AudioQueue)
    else
      None
  }

  /** What the handler reports after "Received new pad ...". */
  datatype Outcome =
    | AlreadyLinked                               // "We are already linked. Ignoring."
    | LinkSucceeded(queue: Queue, padType: string)
    | LinkFailed(queue: Queue, padType: string)   // "Type is '...' but link failed."
    | NotRawMedia(padType: string)                // "... not raw audio or video. Ignoring."
  {
    /** The handler called gst_pad_link. */
    predicate Attempted()
    {
      LinkSucceeded? || LinkFailed?
    }
  }

  /** The link state of the two queue sink pads. */
  datatype Links = Links(audio: bool, video: bool)
  {
    function Linked(q: Queue): bool
    {
      match q
      case AudioQueue => audio
      case VideoQueue => video
    }

    function With(q: Queue): Links
    {
      match q
      case AudioQueue => this.(audio := true)
      case VideoQueue => this.(video := true)
    }
  }

  /**
   * One pad-added signal: the name of the new pad's caps, and whether
   * gst_pad_link would accept the pair apart from the sink pad being taken
   * (the new pad is not linked yet and the formats are compatible; the caps
   * negotiation itself is opaque).
   */
  datatype Announcement = Announcement(padType: string, linkable: bool)

  datatype Reaction = Reaction(links: Links, outcome: Outcome)

  /** What one run of the handler does to the link state of the queues. */
  function React(s: Links, a: Announcement): (r: Reaction)
    ensures r.outcome == AlreadyLinked <==> s.audio && s.video
    ensures r.outcome.AlreadyLinked? ==> r.links == s
    ensures r.outcome.NotRawMedia? <==> !(s.audio && s.video) && Classify(a.padType) == None
    ensures r.outcome.NotRawMedia? ==> r.outcome.padType == a.padType
    ensures r.outcome.Attempted() ==> Classify(a.padType) == Some(r.outcome.queue) && r.outcome.padType == a.padType
    ensures r.outcome.LinkSucceeded? <==> r.outcome.Attempted() && !s.Linked(r.outcome.queue) && a.linkable
    ensures forall q: Queue :: r.links.Linked(q) <==> s.Linked(q) || r.outcome == LinkSucceeded(q, a.padType)
  {
    if s.audio && s.video then
      Reaction(s, AlreadyLinked)
    else
      match Classify(a.padType)
      case None => Reaction(s, NotRawMedia(a.padType))
      case Some(q) =>
        if !s.Linked(q) && a.linkable then Reaction(s.With(q), LinkSucceeded(q, a.padType))
        else Reaction(s, LinkFailed(q, a.padType))
  }

  datatype Trace = Trace(links: Links, outcomes: seq<Outcome>)

  /** The handler run once per announcement, in order. */
  function Run(s: Links, anns: seq<Announcement>): Trace
    decreases |anns|
  {
    if anns == [] then Trace(s, [])
    else
      var r := React(s, anns[0]);
      var t := Run(r.links, anns[1..]);
      Trace(t.links, [r.outcome] + t.outcomes)
  }

  /** How many of `outs` are successful links to `q`. */
  function LinksTo(outs: seq<Outcome>, q: Queue): nat
  {
    if outs == [] then 0
    else (if outs[0].LinkSucceeded? && outs[0].queue == q then 1 else 0) + LinksTo(outs[1..], q)
  }

  /** Every announcement gets exactly one outcome. */
  lemma {:induction false} RunOutcomeCount(s: Links, anns: seq<Announcement>)
    ensures |Run(s, anns).outcomes| == |anns|
    decreases |anns|
  {
    if anns != [] {
      RunOutcomeCount(React(s, anns[0]).links, anns[1..]);
    }
  }

  /** A linked queue sink pad is never unlinked. */
  lemma {:induction false} RunNeverUnlinks(s: Links, anns: seq<Announcement>, q: Queue)
    requires s.Linked(q)
    ensures Run(s, anns).links.Linked(q)
    decreases |anns|
  {
    if anns != [] {
      RunNeverUnlinks(React(s, anns[0]).links, anns[1..], q);
    }
  }

  /**
   * Each queue sink pad is linked at most once: the number of successful
   * links to it is one exactly when it went from unlinked to linked, and
   * zero otherwise.
   */
  lemma {:induction false} RunLinksAtMostOnce(s: Links, anns: seq<Announcement>, q: Queue)
    ensures LinksTo(Run(s, anns).outcomes, q) == if !s.Linked(q) && Run(s, anns).links.Linked(q) then 1 else 0
    decreases |anns|
  {
    if anns != [] {
      var r := React(s, anns[0]);
      RunLinksAtMostOnce(r.links, anns[1..], q);
      var t := Run(r.links, anns[1..]);
      assert ([r.outcome] + t.outcomes)[1..] == t.outcomes;
      if r.links.Linked(q) {
        RunNeverUnlinks(r.links, anns[1..], q);
      }
    }
  }

  /**
   * Every attempted link goes to the queue the pad's caps name selects:
   * raw video only ever to the video queue, raw audio only to the audio
   * queue, and any other type to neither.
   */
  lemma {:induction false} RunOffersByType(s: Links, anns: seq<Announcement>, i: nat)
    requires i < |anns|
    ensures |Run(s, anns).outcomes| == |anns|
    ensures Run(s, anns).outcomes[i].Attempted() ==>
              Classify(anns[i].padType) == Some(Run(s, anns).outcomes[i].queue)
    ensures Classify(anns[i].padType) == None ==> !Run(s, anns).outcomes[i].Attempted()
    decreases |anns|
  {
    RunOutcomeCount(s, anns);
    if i > 0 {
      RunOffersByType(React(s, anns[0]).links, anns[1..], i - 1);
    }
  }

  /** Once both queues are linked, every further announcement is a no-op. */
  lemma {:induction false} RunWhenCompleteIsNoOp(s: Links, anns: seq<Announcement>)
    requires s.audio && s.video
    ensures Run(s, anns).links == s
    ensures forall o | o in Run(s, anns).outcomes :: o == AlreadyLinked
    decreases |anns|
  {
    if anns != [] {
      RunWhenCompleteIsNoOp(s, anns[1..]);
    }
  }

  /** References taken and released on one object. */
  datatype Ledger = Ledger(taken: nat, released: nat)
  {
    predicate Balanced()
    {
      taken == released
    }

    function Take(): Ledger
    {
      this.(taken := taken + 1)
    }

    function Release(): Ledger
    {
      this.(released := released + 1)
    }
  }

  /** The static "sink" pad of a queue element. */
  class SinkPad {
    var linked: bool
    var refs: Ledger

    constructor ()
      ensures !linked && refs == Ledger(0, 0)
    {
      linked := false;
      refs := Ledger(0, 0);
    }

    /** gst_element_get_static_pad: returns the pad with a new reference. */
    method Ref()
      modifies this
      ensures refs == old(refs).Take() && linked == old(linked)
    {
      refs := refs.Take();
    }

    /** gst_object_unref. */
    method Unref()
      modifies this
      ensures refs == old(refs).Release() && linked == old(linked)
    {
      refs := refs.Release();
    }
  }

  /** A source pad announced by the uridecodebin. */
  class SourcePad {
    /** The name of the first structure of the pad's current caps. */
    const capsType: string
    var linked: bool
    /** References to the pad's current caps. */
    var caps: Ledger

    constructor (capsType: string)
      ensures this.capsType == capsType && !linked && caps == Ledger(0, 0)
    {
      this.capsType := capsType;
      linked := false;
      caps := Ledger(0, 0);
    }

    /** gst_pad_get_current_caps followed by the structure-name lookup. */
    method GetCurrentCapsType() returns (padType: string)
      modifies this
      ensures padType == capsType
      ensures caps == old(caps).Take() && linked == old(linked)
    {
      caps := caps.Take();
      padType := capsType;
    }

    /** gst_caps_unref on the caps obtained above. */
    method UnrefCaps()
      modifies this
      ensures caps == old(caps).Release() && linked == old(linked)
    {
      caps := caps.Release();
    }
  }

  /** The subset of GstPadLinkReturn the handler can see. */
  datatype LinkReturn = LinkOk | WasLinked | NoFormat
  {
    /** GST_PAD_LINK_FAILED. */
    predicate Failed()
    {
      !LinkOk?
    }
  }

  /**
   * gst_pad_link: refuses a pair of which either pad is already linked and,
   * for an opaque negotiation reason stood for by `compatible`, a pair whose
   * formats do not match; otherwise links both pads.
   */
  method PadLink(src: SourcePad, sink: SinkPad, compatible: bool) returns (ret: LinkReturn)
    modifies src, sink
    ensures ret.Failed() <==> old(src.linked) || old(sink.linked) || !compatible
    ensures src.linked == (old(src.linked) || !ret.Failed())
    ensures sink.linked == (old(sink.linked) || !ret.Failed())
    ensures src.caps == old(src.caps) && sink.refs == old(sink.refs)
  {
    if src.linked || sink.linked {
      ret := WasLinked;
    } else if !compatible {
      ret := NoFormat;
    } else {
      src.linked, sink.linked := true, true;
      ret := LinkOk;
    }
  }

  /**
   * pad_added_handler. The `goto exit` of the C code is the `break exit`
   * out of the labelled block: whatever branch is taken, the caps are
   * released if they were obtained and both queue sink pads are released.
   */
  method PadAdded(newPad: SourcePad, audio: SinkPad, video: SinkPad, compatible: bool)
      returns (outcome: Outcome)
    requires audio != video
    modifies newPad, audio, video
    ensures Reaction(Links(audio.linked, video.linked), outcome)
         == React(Links(old(audio.linked), old(video.linked)),
                  Announcement(newPad.capsType, !old(newPad.linked) && compatible))
    ensures newPad.linked == (old(newPad.linked) || outcome.LinkSucceeded?)
    ensures audio.refs == old(audio.refs).Take().Release()
    ensures video.refs == old(video.refs).Take().Release()
    ensures newPad.caps == if outcome == AlreadyLinked then old(newPad.caps)
                           else old(newPad.caps).Take().Release()
    ensures old(audio.refs).Balanced() ==> audio.refs.Balanced()
    ensures old(video.refs).Balanced() ==> video.refs.Balanced()
    ensures old(newPad.caps).Balanced() ==> newPad.caps.Balanced()
  {
    audio.Ref();
    video.Ref();
    var capsHeld := false;
    label exit: {
      if audio.linked && video.linked {
        outcome := AlreadyLinked;
        break exit;
      }
      var padType := newPad.GetCurrentCapsType();
      capsHeld := true;
      if HasPrefix(padType, VideoRawPrefix) {
        var ret := PadLink(newPad, video, compatible);
        outcome := if ret.Failed() then LinkFailed(VideoQueue, padType) else LinkSucceeded(VideoQueue, padType);
      } else if HasPrefix(padType, AudioRawPrefix) {
        var ret := PadLink(newPad, audio, compatible);
        outcome := if ret.Failed() then LinkFailed(AudioQueue, padType) else LinkSucceeded(AudioQueue, padType);
      } else {
        outcome := NotRawMedia(padType);
        break exit;
      }
    }
    if capsHeld {
      newPad.UnrefCaps();
    }
    audio.Unref();
    video.Unref();
  }
}
