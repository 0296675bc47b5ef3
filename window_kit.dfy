/**
 * Types shared by every part of WindowKit: the exception, the window
 * descriptor, the process-wide initialisation flag, and the boundary to the
 * native toolkit (what one pump of the event loop reports, and the abstract
 * commands a fullscreen transition issues).
 */
module WindowKit {

  /** WindowKit::Exception: a single error kind carrying a message. */
  datatype Exception = Exception(message: string)

  /** The message EventList::operator[] throws for an index past the occupied count. */
  const OutOfRangeMessage: string :=
    "Provided index for WindowKit::EventList::operator[] was out-of-range"

  /** The outcome of an operation that may throw WindowKit::Exception. */
  datatype Result<T> = Ok(value: T) | Err(error: Exception)

  datatype Option<T> = None | Some(value: T)

  /** WindowKit::WindowDescriptor, the creation-time configuration of a window. */
  datatype WindowDescriptor = WindowDescriptor(
    title: string,
    width: nat,
    height: nat,
    resizable: bool,
    fullscreen: bool)

  /**
   * The process that hosts the windows. It owns the static flag
   * Window::mInitialised, which is false when the program starts.
   */
  class Process {
    var initialised: bool

    constructor ()
      ensures !initialised
    {
      initialised := false;
    }
  }

  /**
   * What one non-blocking iteration of the native event loop leaves behind:
   * whether the "close-request" signal was delivered (so OnClose ran), and
   * the width and height the native surface reports afterwards.
   */
  datatype Sample = Sample(closeRequested: bool, width: nat, height: nat)

  /**
   * One frame of the host application's loop: an optional write through
   * Window::Fullscreen() made before the call to Update, and what the
   * toolkit reports during that Update.
   */
  datatype Frame = Frame(request: Option<bool>, sample: Sample)

  /** The value of the fullscreen flag after the application's write, if any. */
  function Requested(fullscreen: bool, request: Option<bool>): (r: bool)
    ensures request.None? ==> r == fullscreen
    ensures request.Some? ==> r == request.value
  {
    match request
    case None => fullscreen
    case Some(v) => v
  }

  /** The native calls ApplyFullscreen issues, as abstract commands. */
  datatype Command =
    | HideToolbar      // gtk_widget_set_visible(toolbar, FALSE)
    | ShowToolbar      // gtk_widget_set_visible(toolbar, TRUE)
    | Undecorate       // gtk_window_set_decorated(window, FALSE)
    | Decorate         // gtk_window_set_decorated(window, TRUE)
    | EnterFullscreen  // gtk_window_fullscreen(window)
    | LeaveFullscreen  // gtk_window_unfullscreen(window)

  /** The command that undoes the effect of `c`. */
  function Inverse(c: Command): (r: Command)
    ensures r != c
  {
    match c
    case HideToolbar => ShowToolbar
    case ShowToolbar => HideToolbar
    case Undecorate => Decorate
    case Decorate => Undecorate
    case EnterFullscreen => LeaveFullscreen
    case LeaveFullscreen => EnterFullscreen
  }

  /** The commands of `cs` undone in the opposite order. */
  function Undo(cs: seq<Command>): (r: seq<Command>)
    ensures |r| == |cs|
    ensures forall i :: 0 <= i < |cs| ==> r[i] == Inverse(cs[|cs| - 1 - i])
  {
    if cs == [] then [] else Undo(cs[1..]) + [Inverse(cs[0])]
  }

  /** The part of the native window's state the fullscreen commands change. */
  datatype Chrome = Chrome(fullscreen: bool, decorated: bool, toolbarVisible: bool)

  /** The effect of one command on the native window. */
  function Perform(c: Chrome, cmd: Command): (r: Chrome)
  {
    match cmd
    case HideToolbar => c.(toolbarVisible := false)
    case ShowToolbar => c.(toolbarVisible := true)
    case Undecorate => c.(decorated := false)
    case Decorate => c.(decorated := true)
    case EnterFullscreen => c.(fullscreen := true)
    case LeaveFullscreen => c.(fullscreen := false)
  }

  /** The effect of issuing the commands `cs` in order. */
  function Execute(c: Chrome, cs: seq<Command>): (r: Chrome)
    decreases |cs|
  {
    if cs == [] then c else Execute(Perform(c, cs[0]), cs[1..])
  }
}
