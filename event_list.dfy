/**
 * WindowKit::EventList: the growable buffer of events the GTK4 backend
 * fills once per Update. It keeps its capacity (mSize) apart from the
 * number of occupied slots (mOccupied) and grows by doubling when full.
 */
module EventLists {
  import opened WindowKit

  /** WindowKit::Event, the event kinds the polled queue carries. */
  datatype Event = WindowClose | WindowResize

  /** The capacity Append allocates when the buffer is full. */
  function GrownCapacity(capacity: nat): (r: nat)
    ensures r > capacity
  {
    (if capacity == 0 then 1 else capacity) * 2
  }

  /** The capacity of a list that reached `n` events by appends alone. */
  function CapacityAfter(n: nat): (capacity: nat)
  {
    if n == 0 then 0
    else
      var c := CapacityAfter(n - 1);
      if c == n - 1 then GrownCapacity(c) else c
  }

  ghost predicate IsPowerOfTwo(n: nat)
    decreases n
  {
    n == 1 || (n >= 2 && n % 2 == 0 && IsPowerOfTwo(n / 2))
  }

  /**
   * The capacity of a list holding `n` events: 0 when empty, otherwise a
   * power of two of at least 2 that holds all `n` events and, from two
   * events on, is less than twice `n`.
   */
  lemma {:induction false} CapacityAfterBounds(n: nat)
    ensures n == 0 ==> CapacityAfter(n) == 0
    ensures n > 0 ==> 2 <= CapacityAfter(n) && IsPowerOfTwo(CapacityAfter(n))
    ensures n <= CapacityAfter(n)
    ensures n >= 2 ==> CapacityAfter(n) < 2 * n
  {
    if n > 0 {
      CapacityAfterBounds(n - 1);
      var c := CapacityAfter(n - 1);
      if c == n - 1 && c > 0 {
        assert CapacityAfter(n) == 2 * c;
        assert (2 * c) / 2 == c;
      }
    }
  }

  class EventList {
    var buffer: array<Event>  // mEvents
    var capacity: nat         // mSize
    var occupied: nat         // mOccupied

    ghost predicate Valid()
      reads this
    {
      && buffer.Length == capacity
      && occupied <= capacity
      && capacity == CapacityAfter(occupied)
    }

    /** The events in the list, in the order they were appended. */
    ghost function Contents(): (contents: seq<Event>)
      reads this, buffer
      requires Valid()
    {
      buffer[..occupied]
    }

    /** EventList(): an empty list with no buffer. */
    constructor ()
      ensures Valid() && Contents() == [] && capacity == 0 && fresh(buffer)
    {
      buffer := new Event[0];
      capacity := 0;
      occupied := 0;
    }

    /** EventList(const EventList&): a fresh buffer of the same capacity holding the same events. */
    constructor Copy(other: EventList)
      requires other.Valid()
      ensures Valid() && fresh(buffer)
      ensures Contents() == other.Contents() && capacity == other.capacity
    {
      capacity := other.capacity;
      occupied := other.occupied;
      var events := new Event[other.capacity];
      var index := 0;
      while index < other.occupied
        modifies events
        invariant 0 <= index <= other.occupied
        invariant events[..index] == other.buffer[..index]
      {
        events[index] := other.buffer[index];
        index := index + 1;
      }
      buffer := events;
    }

    /** EventList(EventList&&): takes over the other list's buffer and leaves it empty. */
    constructor Move(other: EventList)
      requires other.Valid()
      modifies other
      ensures Valid() && other.Valid()
      ensures buffer == old(other.buffer) && capacity == old(other.capacity)
      ensures Contents() == old(other.Contents())
      ensures other.Contents() == [] && other.capacity == 0 && fresh(other.buffer)
    {
      capacity := other.capacity;
      occupied := other.occupied;
      buffer := other.buffer;
      new;
      other.capacity := 0;
      other.occupied := 0;
      other.buffer := new Event[0];
    }

    /** operator=(const EventList&): copies the other list; assigning a list to itself changes nothing. */
    method CopyAssign(other: EventList)
      requires Valid() && other.Valid()
      modifies this
      ensures Valid() && other.Valid()
      ensures Contents() == old(other.Contents()) && capacity == old(other.capacity)
      ensures other == this ==> buffer == old(buffer)
      ensures other != this ==> fresh(buffer)
    {
      if other == this {
        return;
      }
      var events := new Event[other.capacity];
      var index := 0;
      while index < other.occupied
        modifies events
        invariant 0 <= index <= other.occupied
        invariant events[..index] == other.buffer[..index]
      {
        events[index] := other.buffer[index];
        index := index + 1;
      }
      capacity := other.capacity;
      occupied := other.occupied;
      buffer := events;
    }

    /** operator=(EventList&&): takes over the other list's buffer and leaves it empty; self-assignment changes nothing. */
    method MoveAssign(other: EventList)
      requires Valid() && other.Valid()
      modifies this, other
      ensures Valid() && other.Valid()
      ensures Contents() == old(other.Contents()) && capacity == old(other.capacity)
      ensures buffer == old(other.buffer)
      ensures other != this ==> other.Contents() == [] && other.capacity == 0 && fresh(other.buffer)
    {
      if other == this {
        return;
      }
      capacity := other.capacity;
      occupied := other.occupied;
      buffer := other.buffer;
      other.capacity := 0;
      other.occupied := 0;
      other.buffer := new Event[0];
    }

    /** operator[]: the event appended at position `index`, or the out-of-range exception. */
    method At(index: nat) returns (r: Result<Event>)
      requires Valid()
      ensures index < |Contents()| ==> r == Ok(Contents()[index])
      ensures index >= |Contents()| ==> r == Err(Exception(OutOfRangeMessage))
    {
      if index >= occupied {
        return Err(Exception(OutOfRangeMessage));
      }
      return Ok(buffer[index]);
    }

    /** begin() .. end(): the occupied slots, in order. */
    method Elements() returns (events: seq<Event>)
      requires Valid()
      ensures |events| == occupied
      ensures events == Contents()
    {
      events := buffer[..occupied];
    }

    /** Size(): the number of occupied slots. */
    function Size(): (n: nat)
      reads this, buffer
      requires Valid()
      ensures n == |Contents()|
      ensures n <= capacity
    {
      occupied
    }

    /**
     * Append: places `event` after the existing events; when every slot is
     * occupied it first moves them to a buffer of twice the capacity (two
     * slots for an empty list).
     */
    method Append(event: Event)
      requires Valid()
      modifies this, buffer
      ensures Valid()
      ensures Contents() == old(Contents()) + [event]
      ensures old(occupied) < old(capacity) ==> buffer == old(buffer) && capacity == old(capacity)
      ensures old(occupied) == old(capacity) ==> fresh(buffer) && capacity == GrownCapacity(old(capacity))
    {
      if capacity == occupied {
        var newCapacity := if capacity == 0 then 1 else capacity;
        newCapacity := newCapacity * 2;
        var events := new Event[newCapacity];
        var index := 0;
        while index < occupied
          modifies events
          invariant 0 <= index <= occupied
          invariant events[..index] == buffer[..index]
        {
          events[index] := buffer[index];
          index := index + 1;
        }
        buffer := events;
        capacity := newCapacity;
      }
      CapacityAfterBounds(occupied + 1);
      buffer[occupied] := event;
      occupied := occupied + 1;
    }

    /** Purge: empties the list and releases its buffer. */
    method Purge()
      requires Valid()
      modifies this
      ensures Valid() && Contents() == [] && capacity == 0 && fresh(buffer)
    {
      buffer := new Event[0];
      capacity := 0;
      occupied := 0;
    }
  }
}
