/**
 * read_messages of gst1.c: pop the pipeline's bus, filtered to
 * STATE_CHANGED, ERROR and EOS, report each message, release it, and stop
 * after the first ERROR or EOS.
 *
 * The bus is given as the sequence of values successive pops return (`None`
 * for a NULL pop). If that sequence runs out before a terminal message, the
 * model returns with `terminate` false where the source would block in the
 * next pop.
 */
module BusReader {
  import opened Wrappers
  import opened Messages

  /** The lines the loop prints (stdout or stderr). */
  datatype Line =
    | ErrorReceived(element: string, message: string)   // "Error received from element %s: %s"
    | DebuggingInformation(text: string)                // "Debugging information: %s"
    | EndOfStreamReached                                // "End-Of-Stream reached."
    | PipelineStateChanged(from: GstState, to: GstState) // "Pipeline state changed from %s to %s:"
    | UnexpectedMessage                                 // "Unexpected message received."

  /** What the loop does, in order: print, free, release. */
  datatype Effect =
    | Print(line: Line)
    | ClearError            // g_clear_error on the parsed GError
    | FreeDebug             // g_free on the parsed debug string (a no-op when it is NULL)
    | UnrefMessage(at: nat) // gst_message_unref on the message of pop number `at`

  /** What is printed in place of an absent debug string. */
  const NoDebugInfo: string := "none"

  /** The debug text printed for an ERROR: "none" when there is none. */
  function DebugText(debug: Option<string>): string
  {
    match debug
    case Some(d) => d
    case None => NoDebugInfo
  }

  datatype Handling = Handling(effects: seq<Effect>, terminate: bool)

  /**
   * The switch on GST_MESSAGE_TYPE for one message, before the message is
   * released; `pipeline` is the pipeline's object id.
   */
  function Handle(m: Message, pipeline: nat): (r: Handling)
    ensures m.Error? ==> |r.effects| == 4
                         && r.effects[0] == Print(ErrorReceived(m.src.name, m.message))
                         && r.effects[1] == Print(DebuggingInformation(DebugText(m.debug)))
    ensures m.Eos? ==> r.effects == [Print(EndOfStreamReached)]
    ensures m.StateChanged? && m.src.id == pipeline ==> r.effects == [Print(PipelineStateChanged(m.oldState, m.newState))]
    ensures r.terminate <==> IsTerminal(m)
    ensures m.Error? <==> ClearError in r.effects
    ensures m.Error? <==> FreeDebug in r.effects
    ensures m.Error? && m.debug.None? ==> Print(DebuggingInformation(NoDebugInfo)) in r.effects
    ensures m.StateChanged? ==> (r.effects == [] <==> m.src.id != pipeline)
    ensures m.Other? ==> r.effects == [Print(UnexpectedMessage)]
  {
    match m
    case Error(src, message, debug) =>
      Handling([Print(ErrorReceived(src.name, message)), Print(DebuggingInformation(DebugText(debug))),
                ClearError, FreeDebug], true)
    case Eos(_) =>
      Handling([Print(EndOfStreamReached)], true)
    case StateChanged(src, oldState, newState, _) =>
      Handling(if src.id == pipeline then [Print(PipelineStateChanged(oldState, newState))] else [], false)
    case Other(_, _) =>
      Handling([Print(UnexpectedMessage)], false)
  }

  /**
   * The switch itself releases no message, and within one message every
   * report is printed before anything is freed: the GError's message is
   * read before g_clear_error.
   */
  lemma HandleReleasesNothingPrintsFirst(m: Message, pipeline: nat)
    ensures forall e | e in Handle(m, pipeline).effects :: !e.UnrefMessage?
    ensures var e := Handle(m, pipeline).effects;
            forall i, j | 0 <= i < j < |e| && e[j].Print? :: e[i].Print?
  {
  }

  /** The switch's effects for each message, with `pipeline` the pipeline's object id. */
  function Switch(pipeline: nat): Message -> seq<Effect>
  {
    m => Handle(m, pipeline).effects
  }

  /**
   * One pop, number `at`: a NULL pop does nothing; a message gets the
   * switch's effects `report`, then is released.
   */
  function PopEffects<M>(pop: Option<M>, at: nat, report: M -> seq<Effect>): seq<Effect>
  {
    match pop
    case None => []
    case Some(m) => report(m) + [UnrefMessage(at)]
  }

  /** Everything the loop does over its first `n` pops, in order. */
  function Transcript<M>(pops: seq<Option<M>>, n: nat, report: M -> seq<Effect>): seq<Effect>
    requires n <= |pops|
  {
    if n == 0 then [] else Transcript(pops, n - 1, report) + PopEffects(pops[n - 1], n - 1, report)
  }

  /** Pop number `i` returned ERROR or EOS. */
  predicate TerminalAt(bus: seq<Option<Message>>, i: nat)
    requires i < |bus|
  {
    bus[i].Some? && IsTerminal(bus[i].value)
  }

  /**
   * The body of the switch in read_messages for one popped message: what it
   * prints and frees, and whether it sets `terminate`.
   */
  method DispatchMessage(m: Message, pipeline: Obj) returns (step: seq<Effect>, stop: bool)
    ensures Handling(step, stop) == Handle(m, pipeline.id)
  {
    step, stop := [], false;
    match m {
      case Error(src, message, debug) =>
        step := step + [Print(ErrorReceived(src.name, message))];
        step := step + [Print(DebuggingInformation(DebugText(debug)))];
        step := step + [ClearError];
        step := step + [FreeDebug];
        stop := true;
      case Eos(_) =>
        step := step + [Print(EndOfStreamReached)];
        stop := true;
      case StateChanged(src, oldState, newState, _) =>
        if src.id == pipeline.id {
          step := step + [Print(PipelineStateChanged(oldState, newState))];
        }
      case Other(_, _) =>
        step := step + [Print(UnexpectedMessage)];
    }
  }

  /** read_messages. */
  method ReadMessages(bus: seq<Option<Message>>, pipeline: Obj)
      returns (consumed: nat, terminate: bool, effects: seq<Effect>)
    ensures consumed <= |bus|
    ensures effects == Transcript(bus, consumed, Switch(pipeline.id))
    ensures terminate ==> 0 < consumed && TerminalAt(bus, consumed - 1)
    ensures forall i | 0 <= i < consumed && TerminalAt(bus, i) :: terminate && i == consumed - 1
    ensures !terminate ==> consumed == |bus|
  {
    consumed, terminate, effects := 0, false, [];
    while !terminate && consumed < |bus|
      invariant consumed <= |bus|
      invariant effects == Transcript(bus, consumed, Switch(pipeline.id))
      invariant terminate ==> 0 < consumed && TerminalAt(bus, consumed - 1)
      invariant forall i | 0 <= i < consumed && TerminalAt(bus, i) :: terminate && i == consumed - 1
    {
      var msg := bus[consumed];
      var step: seq<Effect> := [];
      if msg.Some? {
        var stop;
        step, stop := DispatchMessage(msg.value, pipeline);
        if stop {
          terminate := true;
        }
        step := step + [UnrefMessage(consumed)];
      }
      effects := effects + step;
      consumed := consumed + 1;
    }
  }

  /** How many of the first `n` pops returned a message that satisfies `p`. */
  function Matching<M>(pops: seq<Option<M>>, n: nat, p: M -> bool): nat
    requires n <= |pops|
  {
    if n == 0 then 0
    else Matching(pops, n - 1, p) + if pops[n - 1].Some? && p(pops[n - 1].value) then 1 else 0
  }

  /** The message is an ERROR. */
  predicate IsError(m: Message)
  {
    m.Error?
  }

  /** How many of the first `n` pops returned an ERROR message. */
  function ErrorPops(pops: seq<Option<Message>>, n: nat): nat
    requires n <= |pops|
  {
    Matching(pops, n, IsError)
  }

  /** How many times `e` occurs in `s`. */
  function Count(s: seq<Effect>, e: Effect): nat
  {
    if |s| == 0 then 0 else (if s[0] == e then 1 else 0) + Count(s[1..], e)
  }

  lemma {:induction false} CountAppend(a: seq<Effect>, b: seq<Effect>, e: Effect)
    ensures Count(a + b, e) == Count(a, e) + Count(b, e)
  {
    if a != [] {
      assert (a + b)[1..] == a[1..] + b;
      CountAppend(a[1..], b, e);
    } else {
      assert a + b == b;
    }
  }

  lemma {:induction false} CountAbsent(s: seq<Effect>, e: Effect)
    requires e !in s
    ensures Count(s, e) == 0
  {
    if s != [] {
      CountAbsent(s[1..], e);
    }
  }

  /**
   * Per message, the switch frees a GError and a debug string exactly when
   * the message is an ERROR, and reports a message that passes the filter
   * as expected.
   */
  lemma HandleCounts(m: Message, pipeline: nat)
    ensures var k := if m.Error? then 1 else 0;
            Count(Handle(m, pipeline).effects, ClearError) == k && Count(Handle(m, pipeline).effects, FreeDebug) == k
    ensures PassesFilter(m) ==> Print(UnexpectedMessage) !in Handle(m, pipeline).effects
  {
    var h := Handle(m, pipeline).effects;
    if m.Error? {
      var prints := h[..2];
      assert h == prints + [ClearError, FreeDebug];
      CountAbsent(prints, ClearError);
      CountAbsent(prints, FreeDebug);
      CountAppend(prints, [ClearError, FreeDebug], ClearError);
      CountAppend(prints, [ClearError, FreeDebug], FreeDebug);
    } else {
      CountAbsent(h, ClearError);
      CountAbsent(h, FreeDebug);
    }
  }

  /** The transcript of n pops counts `e` as often as that of n - 1 pops and the last pop together. */
  lemma TranscriptCount<M>(pops: seq<Option<M>>, n: nat, report: M -> seq<Effect>, e: Effect)
    requires 0 < n <= |pops|
    ensures Count(Transcript(pops, n, report), e)
            == Count(Transcript(pops, n - 1, report), e) + Count(PopEffects(pops[n - 1], n - 1, report), e)
  {
    CountAppend(Transcript(pops, n - 1, report), PopEffects(pops[n - 1], n - 1, report), e);
  }

  /** A pop counts `e` as often as the switch's effects do, plus one for its release. */
  lemma PopCount<M>(pop: Option<M>, at: nat, report: M -> seq<Effect>, e: Effect)
    ensures Count(PopEffects(pop, at, report), e)
            == if pop.None? then 0 else Count(report(pop.value), e) + if e == UnrefMessage(at) then 1 else 0
  {
    if pop.Some? {
      CountAppend(report(pop.value), [UnrefMessage(at)], e);
      assert [UnrefMessage(at)][1..] == [];
    }
  }

  /**
   * For any switch that releases nothing itself, every message the loop pops
   * is released exactly once, whichever branch it took, and nothing else is
   * released: no NULL pop, no message beyond those popped.
   */
  lemma {:induction false} UnrefExactlyOnce<M>(pops: seq<Option<M>>, n: nat, report: M -> seq<Effect>, at: nat)
    requires n <= |pops|
    requires forall m :: Count(report(m), UnrefMessage(at)) == 0
    ensures Count(Transcript(pops, n, report), UnrefMessage(at))
            == if at < n && pops[at].Some? then 1 else 0
  {
    if n > 0 {
      UnrefExactlyOnce(pops, n - 1, report, at);
      TranscriptCount(pops, n, report, UnrefMessage(at));
      PopCount(pops[n - 1], n - 1, report, UnrefMessage(at));
      if at != n - 1 {
        assert UnrefMessage(at) != UnrefMessage(n - 1);
      }
    }
  }

  /**
   * For any switch that performs `e` (not a release) once for each message
   * satisfying `p` and never otherwise, the transcript performs `e` exactly
   * once per popped message satisfying `p`.
   */
  lemma {:induction false} FreedOncePerMatch<M>(pops: seq<Option<M>>, n: nat, report: M -> seq<Effect>, e: Effect, p: M -> bool)
    requires n <= |pops|
    requires forall m :: Count(report(m), e) == if p(m) then 1 else 0
    requires !e.UnrefMessage?
    ensures Count(Transcript(pops, n, report), e) == Matching(pops, n, p)
  {
    if n > 0 {
      FreedOncePerMatch(pops, n - 1, report, e, p);
      TranscriptCount(pops, n, report, e);
      PopCount(pops[n - 1], n - 1, report, e);
      assert Count(PopEffects(pops[n - 1], n - 1, report), e)
             == if pops[n - 1].Some? && p(pops[n - 1].value) then 1 else 0;
    }
  }

  /**
   * If the switch reports none of the popped messages as unexpected, the
   * transcript never prints "Unexpected message received.".
   */
  lemma {:induction false} FilteredNeverUnexpected<M>(pops: seq<Option<M>>, n: nat, report: M -> seq<Effect>)
    requires n <= |pops|
    requires forall i | 0 <= i < n && pops[i].Some? :: Print(UnexpectedMessage) !in report(pops[i].value)
    ensures Print(UnexpectedMessage) !in Transcript(pops, n, report)
  {
    if n > 0 {
      FilteredNeverUnexpected(pops, n - 1, report);
    }
  }

  /**
   * The reports of consecutive pops appear in pop order: the transcript of
   * the first k pops is a prefix of the transcript of the first n.
   */
  lemma {:induction false} TranscriptExtends<M>(pops: seq<Option<M>>, k: nat, n: nat, report: M -> seq<Effect>)
    requires k <= n <= |pops|
    ensures Transcript(pops, k, report) <= Transcript(pops, n, report)
  {
    if k < n {
      TranscriptExtends(pops, k, n - 1, report);
    }
  }

  /**
   * The loop's own switch meets the conditions of the lemmas above. So over
   * any bus, ReadMessages releases each popped message exactly once and
   * nothing else, frees one GError and one debug string per ERROR popped,
   * and, when the filter held, never reports an unexpected message.
   */
  lemma LoopReleasesAndFrees(pops: seq<Option<Message>>, n: nat, pipeline: nat, at: nat)
    requires n <= |pops|
    ensures Count(Transcript(pops, n, Switch(pipeline)), UnrefMessage(at)) == if at < n && pops[at].Some? then 1 else 0
    ensures Count(Transcript(pops, n, Switch(pipeline)), ClearError) == ErrorPops(pops, n)
    ensures Count(Transcript(pops, n, Switch(pipeline)), FreeDebug) == ErrorPops(pops, n)
    ensures (forall i | 0 <= i < n && pops[i].Some? :: PassesFilter(pops[i].value))
            ==> Print(UnexpectedMessage) !in Transcript(pops, n, Switch(pipeline))
  {
    var report := Switch(pipeline);
    forall m
      ensures Count(report(m), UnrefMessage(at)) == 0
      ensures Count(report(m), ClearError) == if IsError(m) then 1 else 0
      ensures Count(report(m), FreeDebug) == if IsError(m) then 1 else 0
      ensures PassesFilter(m) ==> Print(UnexpectedMessage) !in report(m)
    {
      HandleReleasesNothingPrintsFirst(m, pipeline);
      HandleCounts(m, pipeline);
      CountAbsent(report(m), UnrefMessage(at));
    }
    UnrefExactlyOnce(pops, n, report, at);
    FreedOncePerMatch(pops, n, report, ClearError, IsError);
    FreedOncePerMatch(pops, n, report, FreeDebug, IsError);
    if forall i | 0 <= i < n && pops[i].Some? :: PassesFilter(pops[i].value) {
      FilteredNeverUnexpected(pops, n, report);
    }
  }

  /**
   * A client of ReadMessages: a foreign state change, a pipeline state
   * change, then end of stream. Only the pipeline's change is reported, the
   * loop stops at the EOS and the message after it is never popped.
   */
  method StateChangeThenEos(pipeline: Obj, other: Obj)
      returns (consumed: nat, terminate: bool, effects: seq<Effect>)
    requires other.id != pipeline.id
    ensures consumed == 3 && terminate
    ensures effects == [UnrefMessage(0), Print(PipelineStateChanged(Paused, Playing)), UnrefMessage(1),
                        Print(EndOfStreamReached), UnrefMessage(2)]
  {
    var bus := [Some(StateChanged(other, Null, Ready, VoidPending)),
                Some(StateChanged(pipeline, Paused, Playing, VoidPending)),
                Some(Eos(pipeline)),
                Some(Eos(pipeline))];
    consumed, terminate, effects := ReadMessages(bus, pipeline);
    assert !TerminalAt(bus, 0) && !TerminalAt(bus, 1) && TerminalAt(bus, 2);
    assert consumed == 3;
    assert Transcript(bus, 1, Switch(pipeline.id)) == [UnrefMessage(0)];
    assert Transcript(bus, 2, Switch(pipeline.id)) == [UnrefMessage(0), Print(PipelineStateChanged(Paused, Playing)), UnrefMessage(1)];
  }

  /**
   * A client of ReadMessages: an ERROR with a debug string, then an EOS.
   * Both the error text and the debug string are reported, and the loop
   * stops before the EOS.
   */
  method ErrorWithDebug(pipeline: Obj, decoder: Obj)
      returns (consumed: nat, terminate: bool, effects: seq<Effect>)
    ensures consumed == 1 && terminate
    ensures effects == [Print(ErrorReceived(decoder.name, "decode failed")), Print(DebuggingInformation("debug-XYZ")),
                        ClearError, FreeDebug, UnrefMessage(0)]
  {
    var bus := [Some(Error(decoder, "decode failed", Some("debug-XYZ"))), Some(Eos(pipeline))];
    consumed, terminate, effects := ReadMessages(bus, pipeline);
    assert TerminalAt(bus, 0);
    assert consumed == 1;
  }

  /**
   * A client of ReadMessages: a NULL pop, then an ERROR without a debug
   * string. The debug text is reported as "none" and the loop stops.
   */
  method ErrorWithoutDebug(pipeline: Obj, decoder: Obj)
      returns (consumed: nat, terminate: bool, effects: seq<Effect>)
    ensures consumed == 2 && terminate
    ensures effects == [Print(ErrorReceived(decoder.name, "decode failed")), Print(DebuggingInformation("none")),
                        ClearError, FreeDebug, UnrefMessage(1)]
  {
    var bus := [None, Some(Error(decoder, "decode failed", None))];
    consumed, terminate, effects := ReadMessages(bus, pipeline);
    assert TerminalAt(bus, 1);
    assert consumed == 2;
    assert Transcript(bus, 1, Switch(pipeline.id)) == [];
  }
}
