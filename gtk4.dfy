/**
 * The GTK4 backend of WindowKit::Window. The Implementation refers to the
 * Window's fullscreen flag but keeps its own copy of the size; each Update
 * pumps the event loop once, reconciles fullscreen, resamples the size, and
 * then refills the Window's EventList with this cycle's events.
 */
module Gtk4 {
  import opened WindowKit
  import opened EventLists

  /** The commands ApplyFullscreen issues for the requested state. */
  function FullscreenCommands(fullscreen: bool): (commands: seq<Command>)
  {
    if fullscreen then [Undecorate, EnterFullscreen] else [LeaveFullscreen, Decorate]
  }

  /**
   * Whatever the native window looked like, applying a state leaves it in
   * that state (fullscreen without decorations, or windowed with them) and
   * leaves everything else, the toolbar included, as it was.
   */
  lemma FullscreenCommandsReachState(c: Chrome, fullscreen: bool)
    ensures Execute(c, FullscreenCommands(fullscreen)) == Chrome(fullscreen, !fullscreen, c.toolbarVisible)
  {
    var cs := FullscreenCommands(fullscreen);
    var c1 := Perform(c, cs[0]);
    var c2 := Perform(c1, cs[1]);
    assert Execute(c, cs) == Execute(c1, cs[1..]);
    assert Execute(c1, cs[1..]) == Execute(c2, cs[2..]);
    assert cs[2..] == [];
  }

  /** Leaving fullscreen issues the inverses of the entering commands, in the reverse order. */
  lemma LeavingUndoesEntering()
    ensures FullscreenCommands(false) == Undo(FullscreenCommands(true))
  {
  }

  /** The commands fullscreen reconciliation issues: a transition only when the flag differs from the snapshot. */
  function Reconcile(fullscreen: bool, previous: bool): (commands: seq<Command>)
  {
    if fullscreen != previous then FullscreenCommands(fullscreen) else []
  }

  /**
   * The state one Update reads and writes: the Implementation's Running,
   * PreviousFullscreen, Width, Height and Resized, and the Window's
   * mFullscreen (which the Implementation reaches through a reference).
   */
  datatype State = State(
    running: bool,
    fullscreen: bool,
    previousFullscreen: bool,
    width: nat,
    height: nat,
    resized: bool)

  /** What one Update does: the new state, the commands issued, the event list it leaves. */
  datatype Outcome = Outcome(state: State, commands: seq<Command>, events: seq<Event>)

  /** The events of one cycle: a close if the window was closed, then a resize if it was resized. */
  function Emitted(running: bool, resized: bool): (events: seq<Event>)
  {
    (if running then [] else [WindowClose]) + (if resized then [WindowResize] else [])
  }

  /** Window::Update as a function of the state before it and what the toolkit reports. */
  function Cycle(s: State, p: Sample): (o: Outcome)
  {
    var running := s.running && !p.closeRequested;
    var resized := p.width != s.width || p.height != s.height;
    Outcome(
      State(running, s.fullscreen, s.fullscreen, p.width, p.height, false),
      Reconcile(s.fullscreen, s.previousFullscreen),
      Emitted(running, resized))
  }

  /**
   * One Update afterwards the snapshot equals the flag, and a transition to
   * the flag's value was issued exactly when the two differed.
   */
  lemma CycleReconcilesFullscreen(s: State, p: Sample)
    ensures Cycle(s, p).state.previousFullscreen == Cycle(s, p).state.fullscreen == s.fullscreen
    ensures Cycle(s, p).commands != [] <==> s.fullscreen != s.previousFullscreen
    ensures s.fullscreen != s.previousFullscreen ==> Cycle(s, p).commands == FullscreenCommands(s.fullscreen)
  {
  }

  /** A second Update with the flag unchanged issues no transition. */
  lemma SecondCycleIssuesNothing(s: State, p: Sample, q: Sample)
    ensures Cycle(Cycle(s, p).state, q).commands == []
  {
  }

  /**
   * Activation sets the snapshot to the negated flag, so the first Update
   * applies the same state a second time.
   */
  lemma FirstCycleAfterActivationReapplies(s: State, p: Sample)
    requires s.previousFullscreen == !s.fullscreen
    ensures Cycle(s, p).commands == FullscreenCommands(s.fullscreen)
  {
  }

  /**
   * The event list holds exactly a close if the window is no longer running
   * and a resize if the sampled size differs from the stored one, close
   * first; the stored size becomes the sample, and Resized is cleared.
   */
  lemma CycleEventsAreThisCycles(s: State, p: Sample)
    ensures var o := Cycle(s, p);
      var resized := p.width != s.width || p.height != s.height;
      && |o.events| == (if o.state.running then 0 else 1) + (if resized then 1 else 0)
      && (WindowClose in o.events <==> !o.state.running)
      && (WindowResize in o.events <==> resized)
      && (!o.state.running ==> o.events[0] == WindowClose)
      && (resized ==> o.events[|o.events| - 1] == WindowResize)
      && o.state.width == p.width && o.state.height == p.height
      && !o.state.resized
  {
  }

  // The host loop below repeats its Adwaita counterpart over this module's
  // State on purpose: each backend writes its own Update cycle, and so does
  // each module here.

  /** The state after the application's write through Window::Fullscreen(), if any. */
  function WithRequest(s: State, request: Option<bool>): (r: State)
  {
    s.(fullscreen := Requested(s.fullscreen, request))
  }

  /** The host loop: one write-then-Update per frame, starting from `s`. */
  function Run(s: State, frames: seq<Frame>): (outcomes: seq<Outcome>)
    ensures |outcomes| == |frames|
    decreases |frames|
  {
    if frames == [] then []
    else
      var o := Cycle(WithRequest(s, frames[0].request), frames[0].sample);
      [o] + Run(o.state, frames[1..])
  }

  /** The state frame `i` of Run starts from. */
  function Before(s: State, frames: seq<Frame>, i: nat): (before: State)
    requires i <= |frames|
  {
    if i == 0 then s else Run(s, frames)[i - 1].state
  }

  /** Frame `i` of Run is one Cycle from the state the previous frame left. */
  lemma {:induction false} RunStep(s: State, frames: seq<Frame>, i: nat)
    requires i < |frames|
    ensures Run(s, frames)[i] == Cycle(WithRequest(Before(s, frames, i), frames[i].request), frames[i].sample)
    decreases i
  {
    var o := Cycle(WithRequest(s, frames[0].request), frames[0].sample);
    assert Run(s, frames) == [o] + Run(o.state, frames[1..]);
    if i > 0 {
      RunStep(o.state, frames[1..], i - 1);
      assert frames[1..][i - 1] == frames[i];
      if i > 1 {
        assert Run(s, frames)[i - 1] == Run(o.state, frames[1..])[i - 2];
      }
    }
  }

  /** The fullscreen flag the application has asked for by frame `i`. */
  function Intended(s: State, frames: seq<Frame>, i: nat): (intended: bool)
    requires i < |frames|
  {
    Requested(if i == 0 then s.fullscreen else Intended(s, frames, i - 1), frames[i].request)
  }

  /**
   * After every frame the flag and the snapshot both equal the last value
   * the application asked for, and frame `i` issues a transition exactly
   * when that value differs from the snapshot the previous frame left (for
   * the first frame after Create that snapshot is the negated flag).
   */
  lemma {:induction false} RunAppliesEachChangeOnce(s: State, frames: seq<Frame>, i: nat)
    requires i < |frames|
    ensures Run(s, frames)[i].state.fullscreen == Intended(s, frames, i)
    ensures Run(s, frames)[i].state.previousFullscreen == Intended(s, frames, i)
    ensures var previous := if i == 0 then s.previousFullscreen else Intended(s, frames, i - 1);
      Run(s, frames)[i].commands
        == if Intended(s, frames, i) != previous then FullscreenCommands(Intended(s, frames, i)) else []
    decreases i
  {
    RunStep(s, frames, i);
    if i > 0 {
      RunAppliesEachChangeOnce(s, frames, i - 1);
    }
  }

  /**
   * The window keeps running until the first frame whose pump delivers a
   * close request, and never runs again; from then on every frame's list
   * starts with a close event.
   */
  lemma {:induction false} RunCloseIsSticky(s: State, frames: seq<Frame>, i: nat)
    requires i < |frames|
    ensures Run(s, frames)[i].state.running
        <==> s.running && forall j :: 0 <= j <= i ==> !frames[j].sample.closeRequested
    ensures !Run(s, frames)[i].state.running ==>
      |Run(s, frames)[i].events| > 0 && Run(s, frames)[i].events[0] == WindowClose
    decreases i
  {
    RunStep(s, frames, i);
    if i > 0 {
      RunCloseIsSticky(s, frames, i - 1);
    }
  }

  /**
   * Frame `i`'s list holds a resize exactly when the toolkit reports a size
   * different from the previous frame's report (from the descriptor's size
   * for the first frame); events do not carry over from earlier frames.
   */
  lemma RunResizesOnChange(s: State, frames: seq<Frame>, i: nat)
    requires i < |frames|
    ensures var p := frames[i].sample;
      var (w, h) := if i == 0 then (s.width, s.height)
                    else (frames[i - 1].sample.width, frames[i - 1].sample.height);
      && Run(s, frames)[i].state.width == p.width
      && Run(s, frames)[i].state.height == p.height
      && (WindowResize in Run(s, frames)[i].events <==> (p.width != w || p.height != h))
  {
    RunStep(s, frames, i);
    if i > 0 {
      RunStep(s, frames, i - 1);
    }
  }

  /** The native chrome that shows the fullscreen state `fullscreen`: undecorated when fullscreen, decorated otherwise. */
  ghost predicate Shows(c: Chrome, fullscreen: bool)
  {
    c.fullscreen == fullscreen && c.decorated == !fullscreen
  }

  /** The native chrome after the commands of every frame of Run are issued on `c`, in order. */
  function NativeAfter(c: Chrome, s: State, frames: seq<Frame>): (r: Chrome)
    decreases |frames|
  {
    if frames == [] then c
    else
      var o := Cycle(WithRequest(s, frames[0].request), frames[0].sample);
      NativeAfter(Execute(c, o.commands), o.state, frames[1..])
  }

  /**
   * While the native chrome shows the snapshot, every frame keeps it so: the
   * chrome after the frames shows the snapshot the last frame left.
   */
  lemma {:induction false} ChromeFollowsSnapshot(c: Chrome, s: State, frames: seq<Frame>)
    requires Shows(c, s.previousFullscreen)
    ensures Shows(NativeAfter(c, s, frames), Before(s, frames, |frames|).previousFullscreen)
    decreases |frames|
  {
    if frames != [] {
      var t := WithRequest(s, frames[0].request);
      var o := Cycle(t, frames[0].sample);
      if t.fullscreen != t.previousFullscreen {
        FullscreenCommandsReachState(c, t.fullscreen);
      }
      ChromeFollowsSnapshot(Execute(c, o.commands), o.state, frames[1..]);
      assert Run(s, frames) == [o] + Run(o.state, frames[1..]);
    }
  }

  /** OnActivate as written: the snapshot is the negation of the flag it has just applied. */
  function Activated(s: State): (r: State)
    ensures r.previousFullscreen != r.fullscreen
  {
    s.(previousFullscreen := !s.fullscreen)
  }

  /** OnActivate as intended: the snapshot records the flag it has just applied. */
  function ActivatedCorrected(s: State): (r: State)
    ensures r.previousFullscreen == r.fullscreen
  {
    s.(previousFullscreen := s.fullscreen)
  }

  /** Frames that issue no command leave the native chrome as it was. */
  lemma {:induction false} NativeUnchangedWithoutCommands(c: Chrome, s: State, frames: seq<Frame>)
    requires forall i :: 0 <= i < |frames| ==> Run(s, frames)[i].commands == []
    ensures NativeAfter(c, s, frames) == c
    decreases |frames|
  {
    if frames != [] {
      var o := Cycle(WithRequest(s, frames[0].request), frames[0].sample);
      assert Run(s, frames) == [o] + Run(o.state, frames[1..]);
      assert o.commands == Run(s, frames)[0].commands;
      assert Execute(c, []) == c;
      forall i | 0 <= i < |frames[1..]|
        ensures Run(o.state, frames[1..])[i].commands == []
      {
        assert Run(o.state, frames[1..])[i] == Run(s, frames)[i + 1];
      }
      NativeUnchangedWithoutCommands(c, o.state, frames[1..]);
    }
  }

  /** When only the first frame writes a value, the requested value is that write in every frame. */
  lemma {:induction false} IntendedAfterOneWrite(s: State, frames: seq<Frame>, v: bool, i: nat)
    requires i < |frames| && frames[0].request == Some(v)
    requires forall j :: 0 < j < |frames| ==> frames[j].request == None
    ensures Intended(s, frames, i) == v
    decreases i
  {
    if i > 0 {
      IntendedAfterOneWrite(s, frames, v, i - 1);
    }
  }

  /**
   * As written, a write of the negated flag between Create and the first
   * Update is lost: that Update issues nothing, and neither does any later
   * Update without a write, since flag and snapshot now agree. The native
   * window keeps the initial state while the flag says the opposite.
   */
  lemma WriteBeforeFirstUpdateIsLost(c: Chrome, s: State, p: Sample, later: seq<Frame>)
    requires forall j :: 0 <= j < |later| ==> later[j].request == None
    ensures var a := Activated(s);
      var frames := [Frame(Some(!s.fullscreen), p)] + later;
      && (forall i :: 0 <= i < |frames| ==>
            Run(a, frames)[i].commands == [] && Run(a, frames)[i].state.fullscreen == !s.fullscreen)
      && Shows(NativeAfter(Execute(c, FullscreenCommands(s.fullscreen)), a, frames), s.fullscreen)
      && !Shows(NativeAfter(Execute(c, FullscreenCommands(s.fullscreen)), a, frames), !s.fullscreen)
  {
    var a := Activated(s);
    var frames := [Frame(Some(!s.fullscreen), p)] + later;
    forall j | 0 < j < |frames|
      ensures frames[j].request == None
    {
      assert frames[j] == later[j - 1];
    }
    forall i | 0 <= i < |frames|
      ensures Run(a, frames)[i].commands == [] && Run(a, frames)[i].state.fullscreen == !s.fullscreen
    {
      IntendedAfterOneWrite(a, frames, !s.fullscreen, i);
      if i > 0 {
        IntendedAfterOneWrite(a, frames, !s.fullscreen, i - 1);
      }
      RunAppliesEachChangeOnce(a, frames, i);
    }
    var initial := Execute(c, FullscreenCommands(s.fullscreen));
    FullscreenCommandsReachState(c, s.fullscreen);
    NativeUnchangedWithoutCommands(initial, a, frames);
  }

  /**
   * With the corrected activation the native window shows the flag after
   * Create and after every later frame: each write is applied by the next
   * Update, whatever the initial chrome and whatever the frames.
   */
  lemma CorrectedActivationAppliesEveryWrite(c: Chrome, s: State, frames: seq<Frame>)
    requires |frames| > 0
    ensures var a := ActivatedCorrected(s);
      Shows(NativeAfter(Execute(c, FullscreenCommands(s.fullscreen)), a, frames),
            Intended(a, frames, |frames| - 1))
  {
    var a := ActivatedCorrected(s);
    FullscreenCommandsReachState(c, s.fullscreen);
    ChromeFollowsSnapshot(Execute(c, FullscreenCommands(s.fullscreen)), a, frames);
    RunAppliesEachChangeOnce(a, frames, |frames| - 1);
  }

  class Implementation {
    const window: Window       // Fullscreen refers to its flag
    const title: string
    const resizable: bool
    var running: bool
    var previousFullscreen: bool
    var width: nat
    var height: nat
    var resized: bool
    /** OnActivate has run: the native window exists. */
    var activated: bool
    /** The native calls ApplyFullscreen has made, in order. */
    ghost var commands: seq<Command>

    constructor (window: Window, width: nat, height: nat, title: string, resizable: bool)
      ensures this.window == window && this.title == title && this.resizable == resizable
      ensures this.width == width && this.height == height
      ensures running && !resized && !activated && commands == []
    {
      this.window := window;
      this.width := width;
      this.height := height;
      this.title := title;
      this.resizable := resizable;
      running := true;
      resized := false;
      activated := false;
      commands := [];
    }

    /** Create: registers the application and activates it, which runs OnActivate. */
    method Create()
      requires !activated
      modifies this
      ensures activated && running == old(running) && resized == old(resized)
      ensures width == old(width) && height == old(height)
      ensures previousFullscreen == !window.fullscreen
      ensures commands == old(commands) + FullscreenCommands(window.fullscreen)
    {
      OnActivate();
    }

    /** OnActivate: builds the window, sets the snapshot to the negated flag and applies the flag. */
    method OnActivate()
      modifies this
      ensures activated && running == old(running) && resized == old(resized)
      ensures width == old(width) && height == old(height)
      ensures previousFullscreen == !window.fullscreen
      ensures commands == old(commands) + FullscreenCommands(window.fullscreen)
    {
      activated := true;
      previousFullscreen := !window.fullscreen;
      ApplyFullscreen();
    }

    /** ApplyFullscreen: undecorates and enters fullscreen, or leaves it and decorates. */
    method ApplyFullscreen()
      modifies this`commands
      ensures commands == old(commands) + FullscreenCommands(window.fullscreen)
    {
      if window.fullscreen {
        commands := commands + [Undecorate];
        commands := commands + [EnterFullscreen];
      } else {
        commands := commands + [LeaveFullscreen];
        commands := commands + [Decorate];
      }
    }

    /** OnClose: the "close-request" handler. */
    method OnClose()
      modifies this`running
      ensures !running
    {
      running := false;
    }

    /** One non-blocking iteration of the main context; a pending close request runs OnClose. */
    method Pump(closeRequested: bool)
      modifies this`running
      ensures running == (old(running) && !closeRequested)
    {
      if closeRequested {
        OnClose();
      }
    }

    /** Implementation::Update: pump, reconcile fullscreen, resample the surface size. */
    method Update(p: Sample)
      requires activated
      modifies this
      ensures activated && previousFullscreen == window.fullscreen
      ensures commands == old(commands) + Reconcile(window.fullscreen, old(previousFullscreen))
      ensures running == (old(running) && !p.closeRequested)
      ensures resized == (p.width != old(width) || p.height != old(height))
      ensures width == p.width && height == p.height
    {
      Pump(p.closeRequested);
      if window.fullscreen != previousFullscreen {
        ApplyFullscreen();
        previousFullscreen := window.fullscreen;
      }
      var sampledWidth, sampledHeight := p.width, p.height;
      resized := sampledWidth != width || sampledHeight != height;
      if resized {
        width := sampledWidth;
        height := sampledHeight;
      }
    }
  }

  class Window {
    const title: string
    var width: nat
    var height: nat
    const resizable: bool
    var fullscreen: bool
    var implementation: Implementation?
    const events: EventList

    /** The Implementation exists, refers back to this window and has been activated. */
    ghost predicate Ready()
      reads this, implementation, events
    {
      && implementation != null && implementation.window == this && implementation.activated
      && events.Valid()
    }

    ghost function Snapshot(): (s: State)
      reads this, implementation
      requires implementation != null
    {
      State(implementation.running, fullscreen, implementation.previousFullscreen,
            implementation.width, implementation.height, implementation.resized)
    }

    /**
     * Window(descriptor): copies the descriptor; only a window constructed
     * while the process flag is clear runs Initialise, and the flag is then set.
     */
    constructor (descriptor: WindowDescriptor, process: Process)
      modifies process
      ensures title == descriptor.title && resizable == descriptor.resizable
      ensures width == descriptor.width && height == descriptor.height
      ensures fullscreen == descriptor.fullscreen
      ensures fresh(events) && fresh(events.buffer) && events.Valid() && events.Contents() == []
      ensures process.initialised
      ensures old(process.initialised) ==> implementation == null
      ensures !old(process.initialised) ==>
        && implementation != null && fresh(implementation)
        && implementation.window == this
        && implementation.width == width && implementation.height == height
        && implementation.title == title && implementation.resizable == resizable
        && implementation.running && !implementation.resized && !implementation.activated
        && implementation.commands == []
    {
      title := descriptor.title;
      fullscreen := descriptor.fullscreen;
      resizable := descriptor.resizable;
      width := descriptor.width;
      height := descriptor.height;
      implementation := null;
      events := new EventList();
      new;
      if !process.initialised {
        Initialise();
        process.initialised := true;
      }
    }

    /** Initialise: creates the Implementation with copies of the size and a reference to the flag. */
    method Initialise()
      modifies this`implementation
      ensures implementation != null && fresh(implementation)
      ensures implementation.window == this
      ensures implementation.width == width && implementation.height == height
      ensures implementation.title == title && implementation.resizable == resizable
      ensures implementation.running && !implementation.resized && !implementation.activated
      ensures implementation.commands == []
    {
      implementation := new Implementation(this, width, height, title, resizable);
    }

    /** Create: activates the application, which applies the initial fullscreen state once. */
    method Create()
      requires implementation != null && implementation.window == this && !implementation.activated
      requires events.Valid()
      modifies implementation
      ensures Ready()
      ensures implementation.running == old(implementation.running)
      ensures implementation.resized == old(implementation.resized)
      ensures implementation.width == old(implementation.width)
      ensures implementation.height == old(implementation.height)
      ensures implementation.previousFullscreen == !fullscreen
      ensures implementation.commands == old(implementation.commands) + FullscreenCommands(fullscreen)
    {
      implementation.Create();
    }

    /** A write through Fullscreen(): only the flag changes; nothing is applied until Update. */
    method SetFullscreen(value: bool)
      modifies this`fullscreen
      ensures fullscreen == value
    {
      fullscreen := value;
    }

    /** QueryEvents: the list of the last Update's events. */
    function QueryEvents(): (list: EventList)
      reads this
      ensures list == events
    {
      events
    }

    /**
     * Window::Update: one cycle, then the event list is purged and refilled
     * with this cycle's events, and Resized is cleared. The window's own
     * size fields are left alone: the Implementation holds copies.
     */
    method Update(p: Sample)
      requires Ready()
      modifies this, implementation, events, events.buffer
      ensures Ready() && implementation == old(implementation)
      ensures fresh(events.buffer)
      ensures width == old(width) && height == old(height)
      ensures Snapshot() == Cycle(old(Snapshot()), p).state
      ensures implementation.commands == old(implementation.commands) + Cycle(old(Snapshot()), p).commands
      ensures events.Contents() == Cycle(old(Snapshot()), p).events
    {
      implementation.Update(p);
      events.Purge();
      if !implementation.running {
        events.Append(WindowClose);
      }
      if implementation.resized {
        events.Append(WindowResize);
        implementation.resized := false;
      }
    }
  }

  /** Only the first of two windows constructed in a fresh process runs Initialise. */
  method ConstructTwoWindows(first: WindowDescriptor, second: WindowDescriptor, process: Process)
    returns (a: Window, b: Window)
    requires !process.initialised
    modifies process
    ensures process.initialised
    ensures a.implementation != null && b.implementation == null
  {
    a := new Window(first, process);
    b := new Window(second, process);
  }
}
