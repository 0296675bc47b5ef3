/**
 * The ownership of EventList's raw buffer mEvents, which the EventList class
 * leaves to the garbage collector. Each operation that releases the buffer
 * is modelled twice: as written, and as evidently intended.
 */
module BufferOwnership {

  /** What mEvents holds: nullptr, a live `new Event[]` allocation, or the address of freed memory. */
  datatype Pointer = Null | Live | Freed

  datatype Fault = DoubleFree | MismatchedDelete

  datatype Outcome = Fine(pointer: Pointer) | Failed(fault: Fault)

  /** The operations of EventList that release or replace mEvents. */
  datatype Op =
    | PurgeOp                          // Purge
    | GrowOp                           // Append on a full list
    | CopyAssignOp                     // operator=(const EventList&) from another list
    | MoveAssignOp(incoming: Pointer)  // operator=(EventList&&) from a list whose mEvents is `incoming`

  /** `delete[] p`: frees a live allocation; the pointer keeps its value. */
  function DeleteArray(p: Pointer): (r: Outcome)
  {
    match p
    case Null => Fine(Null)
    case Live => Fine(Freed)
    case Freed => Failed(DoubleFree)
  }

  /** `delete p` on memory obtained from `new Event[]`. */
  function DeleteScalar(p: Pointer): (r: Outcome)
  {
    match p
    case Null => Fine(Null)
    case Live => Failed(MismatchedDelete)
    case Freed => Failed(DoubleFree)
  }

  /** Release with `release`, then let mEvents hold `next`. */
  function ReleaseThen(release: Outcome, next: Pointer): (r: Outcome)
  {
    match release
    case Failed(f) => Failed(f)
    case Fine(_) => Fine(next)
  }

  /** The operations as the source writes them. */
  function StepAsWritten(p: Pointer, op: Op): (r: Outcome)
  {
    match op
    case PurgeOp => DeleteArray(p)                       // pointer not reset
    case GrowOp => ReleaseThen(DeleteArray(p), Live)
    case CopyAssignOp => ReleaseThen(DeleteScalar(p), Live)
    case MoveAssignOp(incoming) => ReleaseThen(DeleteScalar(p), incoming)
  }

  /** The operations as intended: Purge resets the pointer, assignments release with `delete[]`. */
  function StepCorrected(p: Pointer, op: Op): (r: Outcome)
  {
    match op
    case PurgeOp => ReleaseThen(DeleteArray(p), Null)
    case GrowOp => ReleaseThen(DeleteArray(p), Live)
    case CopyAssignOp => ReleaseThen(DeleteArray(p), Live)
    case MoveAssignOp(incoming) => ReleaseThen(DeleteArray(p), incoming)
  }

  function RunAsWritten(p: Pointer, ops: seq<Op>): (r: Outcome)
    decreases |ops|
  {
    if ops == [] then Fine(p)
    else match StepAsWritten(p, ops[0])
      case Failed(f) => Failed(f)
      case Fine(q) => RunAsWritten(q, ops[1..])
  }

  function RunCorrected(p: Pointer, ops: seq<Op>): (r: Outcome)
    decreases |ops|
  {
    if ops == [] then Fine(p)
    else match StepCorrected(p, ops[0])
      case Failed(f) => Failed(f)
      case Fine(q) => RunCorrected(q, ops[1..])
  }

  /**
   * The GTK4 Window::Update purges and appends every cycle. A cycle that
   * appends an event leaves a live buffer; the next cycle's Purge frees it
   * but keeps the pointer, so the Append that follows (or the Purge of the
   * cycle after, or the destructor) frees it again.
   */
  lemma PurgeLeavesDanglingPointer()
    ensures RunAsWritten(Null, [GrowOp, PurgeOp]) == Fine(Freed)
    ensures RunAsWritten(Null, [GrowOp, PurgeOp, GrowOp]) == Failed(DoubleFree)
    ensures RunAsWritten(Null, [GrowOp, PurgeOp, PurgeOp]) == Failed(DoubleFree)
    ensures DeleteArray(Freed) == Failed(DoubleFree)
  {
  }

  /** Assigning to a list that holds a buffer releases it with `delete` instead of `delete[]`. */
  lemma AssignmentUsesScalarDelete()
    ensures RunAsWritten(Null, [GrowOp, CopyAssignOp]) == Failed(MismatchedDelete)
    ensures RunAsWritten(Null, [GrowOp, MoveAssignOp(Null)]) == Failed(MismatchedDelete)
  {
  }

  /**
   * With the corrected operations no sequence of them, starting from an
   * empty list and moving in only buffers that are not dangling, frees a
   * buffer twice or with the wrong form of delete, and the destructor's
   * `delete[]` afterwards is sound too.
   */
  lemma {:induction false} CorrectedOwnershipIsSound(p: Pointer, ops: seq<Op>)
    requires p != Freed
    requires forall k :: 0 <= k < |ops| && ops[k].MoveAssignOp? ==> ops[k].incoming != Freed
    ensures RunCorrected(p, ops).Fine?
    ensures RunCorrected(p, ops).pointer != Freed
    ensures DeleteArray(RunCorrected(p, ops).pointer).Fine?
    decreases |ops|
  {
    if ops != [] {
      var step := StepCorrected(p, ops[0]);
      assert step.Fine? && step.pointer != Freed;
      forall k | 0 <= k < |ops[1..]| && ops[1..][k].MoveAssignOp?
        ensures ops[1..][k].incoming != Freed
      {
        assert ops[1..][k] == ops[k + 1];
      }
      CorrectedOwnershipIsSound(step.pointer, ops[1..]);
    }
  }
}
