/**
 * bus_call of TCPServer.c: the watch installed on the pipeline's bus. It
 * quits the main loop on end of stream and on an error, ignores every other
 * message, and always asks to stay installed.
 */
module BusWatch {
  import opened Wrappers
  import opened Messages

  /** The lines the callback prints. */
  datatype Line =
    | EndOfStream              // "End of stream"
    | ErrorText(text: string)  // "Error: %s"

  /** What the callback does, in order. */
  datatype Effect =
    | Print(line: Line)
    | FreeDebug   // g_free on the parsed debug string (a no-op when it is NULL)
    | FreeError   // g_error_free on the parsed GError
    | QuitLoop    // g_main_loop_quit

  /** The callback's effects and its return value (TRUE keeps the watch). */
  datatype Verdict = Verdict(effects: seq<Effect>, keepWatch: bool)

  /** Position of the first occurrence of `e` in `s`, or |s| when absent. */
  function IndexOf(s: seq<Effect>, e: Effect): (k: nat)
    ensures k <= |s|
    ensures k < |s| ==> s[k] == e
    ensures forall i | 0 <= i < k :: s[i] != e
  {
    if s == [] then 0
    else if s[0] == e then 0
    else 1 + IndexOf(s[1..], e)
  }

  /** What bus_call does with one message. */
  function Dispatch(m: Message): (r: Verdict)
    ensures r.keepWatch
    ensures QuitLoop in r.effects <==> IsTerminal(m)
    ensures !IsTerminal(m) ==> r.effects == []
    ensures m.Eos? ==> r.effects == [Print(EndOfStream), QuitLoop]
    ensures m.Error? ==> |r.effects| == 4 && Print(ErrorText(m.message)) in r.effects
    ensures IsTerminal(m) ==> r.effects[|r.effects| - 1] == QuitLoop && QuitLoop !in r.effects[..|r.effects| - 1]
    ensures FreeDebug in r.effects <==> m.Error?
    ensures FreeError in r.effects <==> m.Error?
  {
    match m
    case Eos(_) => Verdict([Print(EndOfStream), QuitLoop], true)
    case Error(_, message, _) => Verdict([FreeDebug, Print(ErrorText(message)), FreeError, QuitLoop], true)
    case StateChanged(_, _, _, _) => Verdict([], true)
    case Other(_, _) => Verdict([], true)
  }

  /**
   * On an ERROR, the debug string and the GError are each freed exactly
   * once, both before the main loop is quit, and the error text is printed
   * before the GError is freed.
   */
  lemma ErrorFreedOnceBeforeQuit(m: Message)
    requires m.Error?
    ensures var e := Dispatch(m).effects;
            IndexOf(e, Print(ErrorText(m.message))) < IndexOf(e, FreeError) < IndexOf(e, QuitLoop)
            && IndexOf(e, FreeDebug) < IndexOf(e, QuitLoop)
            && FreeError !in e[IndexOf(e, FreeError) + 1..]
            && FreeDebug !in e[IndexOf(e, FreeDebug) + 1..]
  {
  }

  /** The GMainLoop that main runs until the watch quits it. */
  class MainLoop {
    var running: bool

    constructor (running: bool)
      ensures this.running == running
    {
      this.running := running;
    }

    /** g_main_loop_quit. */
    method Quit()
      modifies this
      ensures !running
    {
      running := false;
    }
  }

  /** bus_call, with `loop` the GMainLoop passed as its user data. */
  method BusCall(msg: Message, loop: MainLoop) returns (keep: bool, effects: seq<Effect>)
    modifies loop
    ensures Verdict(effects, keep) == Dispatch(msg)
    ensures loop.running == (old(loop.running) && !IsTerminal(msg))
  {
    effects := [];
    match msg {
      case Eos(_) =>
        effects := effects + [Print(EndOfStream)];
        loop.Quit();
        effects := effects + [QuitLoop];
      case Error(_, message, _) =>
        effects := effects + [FreeDebug];
        effects := effects + [Print(ErrorText(message))];
        effects := effects + [FreeError];
        loop.Quit();
        effects := effects + [QuitLoop];
      case StateChanged(_, _, _, _) =>
      case Other(_, _) =>
    }
    keep := true;
  }
}
