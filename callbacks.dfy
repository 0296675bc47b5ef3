/**
 * The callback table of a Window: one handler per event kind, keyed by the
 * event struct's type. SetCallback registers or replaces the handler of a
 * kind; CallCallback invokes the registered handler of the event's kind, or
 * does nothing when that kind has none.
 */
module Callbacks {

  /** The key of the table: the type of the event struct. */
  datatype EventKind = Close | Resize

  /** The event structs a handler receives: WindowClose{} and WindowResize{Width, Height}. */
  datatype EventData = WindowClose | WindowResize(width: nat, height: nat)
  {
    function Kind(): (kind: EventKind)
    {
      if WindowClose? then Close else Resize
    }
  }

  /** Identifies the function pointer passed to SetCallback. */
  type CallbackId = nat

  /** Identifies one user-data object that SetCallback captures by reference. */
  type UserDataRef = nat

  /** A registered handler: the callback and the user data it was registered with. */
  datatype Handler = Handler(callback: CallbackId, userData: seq<UserDataRef>)

  /** One call `callback(window, event, userData...)` made by CallCallback. */
  datatype Invocation = Invocation(callback: CallbackId, event: EventData, userData: seq<UserDataRef>)

  type Table = map<EventKind, Handler>

  /** The table after `handler` is stored under `kind`. */
  function Register(table: Table, kind: EventKind, handler: Handler): (r: Table)
    ensures kind in r && r[kind] == handler
    ensures forall k :: k != kind ==> (k in r <==> k in table)
    ensures forall k :: k != kind && k in table ==> r[k] == table[k]
  {
    table[kind := handler]
  }

  /**
   * The calls CallCallback makes for `event`: none when its kind has no
   * handler, otherwise exactly one, to the handler registered for that kind,
   * with the event and the user data captured at registration.
   */
  function Dispatch(table: Table, event: EventData): (calls: seq<Invocation>)
    ensures |calls| == if event.Kind() in table then 1 else 0
    ensures forall c :: c in calls ==>
      c.event == event && Handler(c.callback, c.userData) == table[event.Kind()]
  {
    if event.Kind() in table then
      var h := table[event.Kind()];
      [Invocation(h.callback, event, h.userData)]
    else
      []
  }

  /** The calls made by CallCallback for each of `events` in turn. */
  function DispatchAll(table: Table, events: seq<EventData>): (calls: seq<Invocation>)
    decreases |events|
  {
    if events == [] then [] else Dispatch(table, events[0]) + DispatchAll(table, events[1..])
  }

  /** Dispatching two batches one after the other makes the calls of both, in order. */
  lemma {:induction false} DispatchAllAppend(table: Table, a: seq<EventData>, b: seq<EventData>)
    ensures DispatchAll(table, a + b) == DispatchAll(table, a) + DispatchAll(table, b)
    decreases |a|
  {
    if a == [] {
      assert a + b == b;
    } else {
      assert (a + b)[0] == a[0] && (a + b)[1..] == a[1..] + b;
      DispatchAllAppend(table, a[1..], b);
    }
  }

  /** A later registration for a kind replaces the earlier one: only the last handler is called. */
  lemma LastRegistrationWins(table: Table, kind: EventKind, first: Handler, second: Handler, event: EventData)
    requires event.Kind() == kind
    ensures Dispatch(Register(Register(table, kind, first), kind, second), event)
         == [Invocation(second.callback, event, second.userData)]
  {
  }

  /** Registering a handler for one kind does not change what an event of another kind calls. */
  lemma RegisterOtherKind(table: Table, kind: EventKind, handler: Handler, event: EventData)
    requires event.Kind() != kind
    ensures Dispatch(Register(table, kind, handler), event) == Dispatch(table, event)
  {
  }
}
