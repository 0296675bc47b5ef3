# WindowKit event and state reconciliation, in Dafny

WindowKit puts one `Window` API over several native toolkits. This project
models the per-frame core that is the same for every toolkit:

- **EventList**, the growable event buffer. Its capacity (`mSize`) is kept
  apart from its occupied count (`mOccupied`). It doubles when full, is
  purged every cycle, and its `operator[]` is bounds-checked.
- **The callback table**, one handler per event kind. A later registration
  replaces an earlier one. Dispatching a kind with no handler does nothing.
- **The `Update` cycle** of the two Linux backends, Adwaita and GTK4. Each
  cycle pumps the event loop once, reconciles the fullscreen flag against
  the `PreviousFullscreen` snapshot, resamples the size, checks `Running`,
  and emits close and then resize. Adwaita emits through callbacks. GTK4
  emits by purging and refilling the window's `EventList`.
- **The `Window` constructor**. It copies the descriptor. The process-wide
  `mInitialised` flag makes sure only the first window runs `Initialise`.

Files and modules:

| file | module | models |
|---|---|---|
| window_kit.dfy | `WindowKit` | exception, descriptor, the process (owner of `mInitialised`), toolkit boundary (`Sample`, `Frame`), fullscreen commands and their effect (`Chrome`, `Execute`) |
| event_list.dfy | `EventLists` | `EventList` as a class over an `array`, and its capacity law |
| buffer_ownership.dfy | `BufferOwnership` | who owns `mEvents`: the release defects as written, and corrected |
| callbacks.dfy | `Callbacks` | the callback table as a map from event kind to handler plus captured user data |
| adwaita.dfy | `Adwaita` | Adwaita `Implementation` and `Window` classes; `Cycle` / `Run` specification functions and lemmas |
| gtk4.dfy | `Gtk4` | GTK4 `Implementation` and `Window` classes; `Cycle` / `Run` specification functions and lemmas |

The two backends are built against different revisions of `Window`. Adwaita
has a callback table. GTK4 has `mEvents` and `QueryEvents`. So each backend
is its own module with its own `Window` class. Each class carries the
constructor from `source/window.cpp`.

The toolkit appears only through inputs and a trace:

- Every `Update` takes a `Sample`. It says whether the pump delivered a
  close request (which runs `OnClose`) and gives the width and height
  sampled afterwards.
- `ApplyFullscreen` appends abstract `Command`s to a ghost `commands` trace
  on the `Implementation`.
- Calls to user handlers are appended to a ghost `invocations` log on the
  Adwaita `Window`.
- In the primary instance, `g_application_activate` runs the "activate"
  handler synchronously, so `Create` is modelled as running `OnActivate`.

Each `Window.Update` method is proved against that backend's `Cycle`
function. Its new state, trace and events/invocations are `Cycle` applied
to the old state. `Run` chains `Cycle` over a sequence of `Frame`s. A
`Frame` is an optional application write through `Fullscreen()` followed by
one `Update`. The multi-cycle properties are lemmas about `Run`.

In these places the model follows what the code does:

- The first growth allocates 2 slots (`mSize` goes 1 and then is doubled),
  not 1.
- After a close, every later `Update` emits close again. `Running` is
  never reset. Close is not reported just once.
- `Update` before `Create` is not reported as an error. On the first
  window it reads `PreviousFullscreen` before anything has set it, and it
  passes the still-null widgets (source/linux/adwaita.cpp:41,
  source/linux/gtk4.cpp:37) to the toolkit. On every later window
  `Update` calls through the `mImplementation` pointer that was never set
  (source/linux/adwaita.cpp:161, source/linux/gtk4.cpp:140). Being
  created and activated is a precondition here (`Ready()`).
- The Adwaita backend never clears `Resized`. It is recomputed every cycle.
  The GTK4 `Window::Update` clears it after appending the resize event.
- With either backend, the first `Update` after `Create` applies the
  current fullscreen state a second time. `OnActivate` sets the snapshot
  to the negated flag.
- For the same reason, a write of the negated flag through `Fullscreen()`
  between `Create` and the first `Update` is never applied. That `Update`
  finds flag and snapshot equal and issues nothing, so the native window
  keeps the opposite state (see "## Findings").

## Model

| member | source | states |
|---|---|---|
| WindowKit.Process.constructor | source/window.cpp:182 | the process-wide initialisation flag starts false |
| EventLists.GrownCapacity | source/window.cpp:145-152 | a growth always yields a strictly larger capacity (0 grows to 2, c to 2c) |
| EventLists.CapacityAfterBounds | source/window.cpp:141-169 | the capacity reached by n appends is 0 for n = 0, otherwise a power of two that is at least 2 and at least n, and less than 2n once n >= 2 |
| EventLists.EventList.constructor | source/window.cpp:13-16 | a new list has capacity 0, no events and size 0, and owns a buffer of its own |
| EventLists.EventList.Copy | source/window.cpp:26-36 | the copy has a fresh buffer, the same capacity and the same events in the same order |
| EventLists.EventList.Move | source/window.cpp:38-47 | the new list takes over the other's buffer, capacity and events; the other is left a valid empty list with capacity 0 and a buffer of its own, ready for Append |
| EventLists.EventList.CopyAssign | source/window.cpp:49-71 | afterwards the list holds the other's events and capacity; for distinct lists in a fresh buffer; self-assignment keeps the buffer |
| EventLists.EventList.MoveAssign | source/window.cpp:73-94 | the list takes over the other's buffer and events; a distinct source is left a valid empty list with a buffer of its own, ready for Append; self-assignment changes nothing |
| EventLists.EventList.At | source/window.cpp:96-114 | index below Size() yields the event appended at that position; any other index yields the out-of-range exception with its message |
| EventLists.EventList.Elements | source/window.cpp:116-134 | the begin..end range is exactly the occupied events in insertion order |
| EventLists.EventList.Size | source/window.cpp:136-139 | Size() is the number of events held and never exceeds the capacity |
| EventLists.EventList.Append | source/window.cpp:141-169 | the event goes at index old Size(), earlier events are unchanged; the buffer is replaced and the capacity grown only when the list was full; the invariant occupied <= capacity == CapacityAfter(occupied) is kept |
| EventLists.EventList.Purge | source/window.cpp:171-180 | the list is empty with capacity 0 |
| BufferOwnership.PurgeLeavesDanglingPointer | source/window.cpp:171-180 | as written: after Purge of a live buffer the pointer still refers to freed memory, and a following Append or Purge frees it again |
| BufferOwnership.AssignmentUsesScalarDelete | source/window.cpp:49-94 | as written: assigning to a list that holds a buffer releases it with scalar delete |
| BufferOwnership.CorrectedOwnershipIsSound | source/window.cpp:141-180 | corrected (Purge resets the pointer, assignments use delete[]): no sequence of operations double-frees or mismatches, and the destructor afterwards is sound |
| Callbacks.Register | inline/window.inl:26-31 | after registering, the kind maps to the new handler and every other kind keeps its entry or absence |
| Callbacks.Dispatch | inline/window.inl:5-14 | no call when the kind has no handler; otherwise exactly one, to the registered handler with the event and its captured user data |
| Callbacks.LastRegistrationWins | inline/window.inl:28 | of two registrations for one kind only the second handler is called |
| Callbacks.RegisterOtherKind | include/window.hpp:77 | registering for one kind leaves what an event of any other kind calls unchanged |
| Adwaita.FullscreenCommandsReachState | source/linux/adwaita.cpp:86-100 | whatever the window's state, the commands leave it fullscreen with no decorations or toolbar, or windowed with both |
| Adwaita.LeavingUndoesEntering | source/linux/adwaita.cpp:86-100 | leaving issues the inverses of entering in the reverse order (unfullscreen, decorate, show toolbar) |
| Adwaita.CycleReconcilesFullscreen | source/linux/adwaita.cpp:67-72 | afterwards PreviousFullscreen == Fullscreen, and the transition to Fullscreen was issued exactly when they differed |
| Adwaita.SecondCycleIssuesNothing | source/linux/adwaita.cpp:67-72 | a second Update with the flag unchanged issues no command |
| Adwaita.FirstCycleAfterActivationReapplies | source/linux/adwaita.cpp:132-134 | with the snapshot negated by OnActivate, the next Update applies the same state again |
| Adwaita.CycleSamplesSize | source/linux/adwaita.cpp:74-83 | Resized holds exactly when the sampled width or height differs; the stored size becomes the sample |
| Adwaita.CycleEmitsCloseThenResize | source/linux/adwaita.cpp:159-172 | one close exactly when not running, first; one resize exactly when resized, last, with the updated size; no other event and no duplicate |
| Adwaita.CycleCallsCloseBeforeResize | source/linux/adwaita.cpp:159-172 | the handler calls are the close dispatch (if closed) followed by the resize dispatch with the new size (if resized) |
| Adwaita.RunAppliesEachChangeOnce | source/linux/adwaita.cpp:63-72 | over any frames the flag and snapshot end each frame at the requested value; a frame issues a transition exactly when the requested value differs from the snapshot the previous frame left; after Create that snapshot is the negated flag |
| Adwaita.RunCloseIsSticky | source/linux/adwaita.cpp:137-142 | Running holds exactly until the first close request and never again; every later frame emits a close first |
| Adwaita.RunResizesOnChange | source/linux/adwaita.cpp:74-83 | a frame resizes, and emits a resize with the reported size, exactly when the report differs from the previous one (the descriptor's size for the first) |
| Adwaita.Activated | source/linux/adwaita.cpp:132 | as written, activation leaves the snapshot different from the flag |
| Adwaita.ActivatedCorrected | source/linux/adwaita.cpp:132-134 | as intended, activation leaves the snapshot equal to the flag it applied |
| Adwaita.ChromeFollowsSnapshot | source/linux/adwaita.cpp:67-72 | while the native window shows the snapshot, every frame keeps it so: afterwards it shows the last frame's snapshot |
| Adwaita.WriteBeforeFirstUpdateIsLost | source/linux/adwaita.cpp:132-134 | as written, a write of the negated flag before the first Update issues no command in that frame or in any later frame without a write; the flag stays negated and the native window keeps showing the old state |
| Adwaita.CorrectedActivationAppliesEveryWrite | source/linux/adwaita.cpp:67-72 | with the corrected activation, after any frames the native window shows the last requested value |
| Adwaita.Implementation.constructor | source/linux/adwaita.cpp:40-43 | starts running, not resized, not activated, with no commands issued |
| Adwaita.Implementation.Create | source/linux/adwaita.cpp:53-61 | activation runs: snapshot is the negated flag and the flag's state is applied once |
| Adwaita.Implementation.OnActivate | source/linux/adwaita.cpp:102-135 | sets PreviousFullscreen to the negated flag and issues the flag's transition |
| Adwaita.Implementation.ApplyFullscreen | source/linux/adwaita.cpp:86-100 | appends hide toolbar, undecorate, fullscreen, or unfullscreen, decorate, show toolbar |
| Adwaita.Implementation.OnClose | source/linux/adwaita.cpp:137-142 | Running becomes false and nothing else changes |
| Adwaita.Implementation.Pump | source/linux/adwaita.cpp:65 | Running is cleared exactly when a close request is delivered |
| Adwaita.Implementation.Update | source/linux/adwaita.cpp:63-84 | snapshot equals the flag; the transition is issued only on a difference; Resized iff the sample differs; the Window's own width and height become the sample |
| Adwaita.Window.constructor | source/window.cpp:184-200 | copies title, width, height, resizable and fullscreen; creates the Implementation only when the process flag was clear; the flag is set |
| Adwaita.Window.Initialise | source/linux/adwaita.cpp:149-152 | creates a fresh Implementation referring to this window |
| Adwaita.Window.Create | source/linux/adwaita.cpp:154-157 | the window becomes ready, with the initial state applied once; Running and Resized are unchanged |
| Adwaita.Window.SetFullscreen | source/window.cpp:207-210 | a write through Fullscreen() changes only the flag; no command is issued |
| Adwaita.Window.SetCallback | inline/window.inl:16-32 | the table becomes Register(old table, kind, handler with its user data) |
| Adwaita.Window.CallCallback | inline/window.inl:5-14 | the invocation log grows by exactly Dispatch(table, event) |
| Adwaita.Window.Update | source/linux/adwaita.cpp:159-172 | new state, command trace and handler calls are those of Cycle from the old state |
| Adwaita.ConstructTwoWindows | source/window.cpp:194-199 | of two windows built in a fresh process only the first gets an Implementation |
| Gtk4.FullscreenCommandsReachState | source/linux/gtk4.cpp:84-96 | the commands leave the window fullscreen and undecorated, or windowed and decorated, with the toolbar untouched |
| Gtk4.LeavingUndoesEntering | source/linux/gtk4.cpp:84-96 | leaving (unfullscreen, decorate) is the reverse of entering (undecorate, fullscreen) |
| Gtk4.CycleReconcilesFullscreen | source/linux/gtk4.cpp:63-68 | afterwards PreviousFullscreen == Fullscreen, and the transition was issued exactly when they differed |
| Gtk4.SecondCycleIssuesNothing | source/linux/gtk4.cpp:63-68 | a second Update with the flag unchanged issues no command |
| Gtk4.FirstCycleAfterActivationReapplies | source/linux/gtk4.cpp:111-113 | with the snapshot negated by OnActivate, the next Update applies the same state again |
| Gtk4.CycleEventsAreThisCycles | source/linux/gtk4.cpp:138-155 | the list holds exactly one close when not running and one resize when the size changed, close first, and nothing else; the stored size becomes the sample; Resized is false |
| Gtk4.RunAppliesEachChangeOnce | source/linux/gtk4.cpp:59-68 | over any frames the flag and snapshot end each frame at the requested value; a frame issues a transition exactly when the requested value differs from the snapshot the previous frame left; after Create that snapshot is the negated flag |
| Gtk4.RunCloseIsSticky | source/linux/gtk4.cpp:116-121 | Running holds exactly until the first close request; every later list starts with a close |
| Gtk4.RunResizesOnChange | source/linux/gtk4.cpp:72-81 | a frame's list holds a resize exactly when the report differs from the previous one (the descriptor's size for the first) |
| Gtk4.Activated | source/linux/gtk4.cpp:111 | as written, activation leaves the snapshot different from the flag |
| Gtk4.ActivatedCorrected | source/linux/gtk4.cpp:111-113 | as intended, activation leaves the snapshot equal to the flag it applied |
| Gtk4.ChromeFollowsSnapshot | source/linux/gtk4.cpp:63-68 | while the native window shows the snapshot, every frame keeps it so: afterwards it shows the last frame's snapshot |
| Gtk4.WriteBeforeFirstUpdateIsLost | source/linux/gtk4.cpp:111-113 | as written, a write of the negated flag before the first Update issues no command in that frame or in any later frame without a write; the flag stays negated and the native window keeps showing the old state |
| Gtk4.CorrectedActivationAppliesEveryWrite | source/linux/gtk4.cpp:63-68 | with the corrected activation, after any frames the native window shows the last requested value |
| Gtk4.Implementation.constructor | source/linux/gtk4.cpp:35-39 | starts running, not resized, with its own copy of the size and no commands |
| Gtk4.Implementation.Create | source/linux/gtk4.cpp:49-57 | activation runs: snapshot is the negated flag and the flag's state is applied once |
| Gtk4.Implementation.OnActivate | source/linux/gtk4.cpp:98-114 | sets PreviousFullscreen to the negated flag and issues the flag's transition |
| Gtk4.Implementation.ApplyFullscreen | source/linux/gtk4.cpp:84-96 | appends undecorate, fullscreen, or unfullscreen, decorate |
| Gtk4.Implementation.OnClose | source/linux/gtk4.cpp:116-121 | Running becomes false and nothing else changes |
| Gtk4.Implementation.Pump | source/linux/gtk4.cpp:61 | Running is cleared exactly when a close request is delivered |
| Gtk4.Implementation.Update | source/linux/gtk4.cpp:59-82 | snapshot equals the flag; transition only on a difference; Resized iff the sample differs from the Implementation's copy, which becomes the sample |
| Gtk4.Window.constructor | source/window.cpp:184-200 | copies the descriptor, starts with an empty event list, creates the Implementation only when the process flag was clear; the flag is set; the window owns its event list and that list's buffer |
| Gtk4.Window.Initialise | source/linux/gtk4.cpp:128-131 | creates a fresh Implementation with copies of the window's size |
| Gtk4.Window.Create | source/linux/gtk4.cpp:133-136 | the window becomes ready, with the initial state applied once; Running, Resized and the Implementation's copy of the size are unchanged |
| Gtk4.Window.SetFullscreen | source/window.cpp:207-210 | a write through Fullscreen() changes only the flag; no command is issued |
| Gtk4.Window.QueryEvents | source/window.cpp:202-205 | returns the window's own event list |
| Gtk4.Window.Update | source/linux/gtk4.cpp:138-155 | state, trace and event list are those of Cycle from the old state; the list's buffer is newly allocated and owned by the window; the Window's own width and height are unchanged |
| Gtk4.ConstructTwoWindows | source/window.cpp:194-199 | of two windows built in a fresh process only the first gets an Implementation |

## Left out

- GTK, GLib and Adwaita calls are not modelled. This covers application and window construction, header bar and toolbar setup, signal connection, `set_default_size`/`set_title`/`set_resizable`/`set_visible` and `g_object_unref`. They are foreign toolkit code. Only the fullscreen transition calls appear, as commands.
- The native event loop is not modelled. A pump is represented only by what it leaves behind: a latched close request and the sampled size.
- Destructors (`~EventList`, `~Implementation`, `~Window`) are not modelled. Dafny has no explicit deallocation. Buffer ownership is modelled on its own in `BufferOwnership`.
- `Gtk4.Window.QueryEvents`: the read-only `const EventList&` the source returns is not modelled. The method returns the window's list object itself, and a caller with the right to modify it could `Append` or `Purge` through it.
- `EventList.At`: the mutable reference that the non-`const` `operator[]` returns, and writes through it, are not modelled. Both overloads are modelled by one read.
- Integer widths are not modelled. `unsigned int` sizes, `mSize`, `mOccupied` and the `int`/`unsigned int` conversions of sampled sizes are unbounded naturals. There is no 32-bit wrap-around of the doubling.
- `Exception::what` and the string handling behind it are not modelled. An exception is its message.
- C++ type erasure is not modelled (`std::type_index`, `std::function`, `void*` casts, variadic `UserData&...`). A handler is a callback id plus a sequence of user-data references. The lifetime of the referenced user data is not modelled.
- `Adwaita.Window.CallCallback`: an invocation record leaves out the `Window&` argument, which is always the window itself. What a handler does when called is not modelled (for example, whether it changes the window or registers another handler).
- The unset `mImplementation` of every window after the first is not modelled as indeterminate. The source leaves it uninitialised; the model makes it `null`. `Create` and `Update` then require an Implementation, and `Update` requires activation, because the source does not check either.
- `PreviousFullscreen` has no value before `OnActivate` in the source. The model says nothing about it until `Create`.
- Backend selection by `WINDOWKIT_BACKEND_*` is not modelled. It is build configuration. The two backends are separate modules.
- Fullscreen changes made by the toolkit itself are not modelled. Neither backend reads them back.
- Concurrency is not modelled. WindowKit starts no threads; `Update` is called from one thread.
- `Create` is modelled for the primary instance only. The application id is fixed (source/linux/adwaita.cpp:55, source/linux/gtk4.cpp:51). When another process already holds it, this process is a remote instance, `OnActivate` runs elsewhere, and a later `Update` works on widgets that were never built. That case is not modelled.

## Findings

| source | as written | input that shows it | evidently intended | confidence | as-written member | corrected member |
|---|---|---|---|---|---|---|
| source/window.cpp:171-180 | `Purge` frees `mEvents` but does not reset the pointer | GTK4 `Update` cycles: one that appends an event, then one with another event (its `Append` frees the dangling buffer again), or two with none (the second `Purge` frees it again) | `Purge` sets `mEvents` to `nullptr` | not executed; high | BufferOwnership.PurgeLeavesDanglingPointer | BufferOwnership.CorrectedOwnershipIsSound |
| source/window.cpp:56-59, source/window.cpp:80-83 | copy assignment (line 58) and move assignment (line 82) release a `new Event[]` buffer with `delete` | assigning any list to a list that holds a buffer | release with `delete[]` | not executed; high | BufferOwnership.AssignmentUsesScalarDelete | BufferOwnership.CorrectedOwnershipIsSound |
| source/linux/adwaita.cpp:132-134 | `OnActivate` applies the flag but sets the snapshot to its negation | `Create` on a windowed descriptor, then `Fullscreen() = true`, then any number of `Update`s with no further write: none issues a command, and the window stays windowed | the snapshot records the applied flag, so the next `Update` applies any later write | not executed; medium | Adwaita.WriteBeforeFirstUpdateIsLost | Adwaita.CorrectedActivationAppliesEveryWrite |
| source/linux/gtk4.cpp:111-113 | `OnActivate` applies the flag but sets the snapshot to its negation | the same sequence on the GTK4 backend | the snapshot records the applied flag | not executed; medium | Gtk4.WriteBeforeFirstUpdateIsLost | Gtk4.CorrectedActivationAppliesEveryWrite |

The `EventList` class itself follows the corrected behaviour. Its `Purge`
leaves a fresh empty buffer and no pointer to freed memory.

The two `Implementation` classes keep the activation as written.
`OnActivate` negates the snapshot, so their contracts describe what the
code does. The corrected activation is the definition `ActivatedCorrected`
in each backend's module. The lemmas about the native window
(`ChromeFollowsSnapshot`, `CorrectedActivationAppliesEveryWrite`) are
stated over it.
