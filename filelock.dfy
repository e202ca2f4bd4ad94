/** The lock record of one path: how many readers hold it and whether a
    writer does.  The record itself does not check its callers; the
    acquire methods are meant to follow a successful canRead/canWrite. */
module LockInfo {

  /** The value of a record: its reader count and writer flag. */
  datatype LockState = LockState(readers: nat, writer: bool) {
    /** canRead: no writer. */
    predicate CanRead() {
      !writer
    }

    /** canWrite: no writer and no reader. */
    predicate CanWrite() {
      !writer && readers == 0
    }

    /** The reader/writer exclusion every record should keep. */
    predicate Exclusive() {
      !(writer && readers > 0)
    }

    /** Nobody holds the path: the lock manager drops such a record. */
    predicate IsEmpty() {
      readers == 0 && !writer
    }
  }

  /** A fresh record. */
  const FRESH: LockState := LockState(0, false)

  /** FileLockInfo. */
  class FileLockInfo {
    var readerCount: nat
    var writer: bool

    constructor ()
      ensures readerCount == 0 && !writer
    {
      readerCount := 0;
      writer := false;
    }

    /** The record's current value. */
    function State(): LockState
      reads this
    {
      LockState(readerCount, writer)
    }

    /** canRead. */
    function CanRead(): (b: bool)
      reads this
      ensures b <==> State().CanRead()
    {
      !writer
    }

    /** canWrite. */
    function CanWrite(): (b: bool)
      reads this
      ensures b <==> State().CanWrite()
    {
      !writer && readerCount == 0
    }

    /** acquireRead: one more reader; the writer flag is untouched. */
    method AcquireRead()
      modifies this
      ensures readerCount == old(readerCount) + 1 && writer == old(writer)
    {
      readerCount := readerCount + 1;
    }

    /** acquireWrite: sets the writer flag; the reader count is untouched. */
    method AcquireWrite()
      modifies this
      ensures writer && readerCount == old(readerCount)
    {
      writer := true;
    }

    /** releaseRead: one reader fewer, but never below zero. */
    method ReleaseRead()
      modifies this
      ensures readerCount == (if old(readerCount) > 0 then old(readerCount) - 1 else 0)
      ensures writer == old(writer)
    {
      if readerCount > 0 {
        readerCount := readerCount - 1;
      }
    }

    /** releaseWrite: clears the writer flag; the reader count is untouched. */
    method ReleaseWrite()
      modifies this
      ensures !writer && readerCount == old(readerCount)
    {
      writer := false;
    }
  }

  // ---------------------------------------------------------------------
  // Properties: a record driven only through guarded acquires

  /** What a caller may do to a record: try to take it (checking canRead or
      canWrite first, acquiring only on success), or release it. */
  datatype LockOp = TryRead | TryWrite | ReleaseRead | ReleaseWrite

  /** The record after one such step. */
  function Apply(s: LockState, op: LockOp): LockState {
    match op
    case TryRead => if s.CanRead() then LockState(s.readers + 1, s.writer) else s
    case TryWrite => if s.CanWrite() then LockState(s.readers, true) else s
    case ReleaseRead => LockState(if s.readers > 0 then s.readers - 1 else 0, s.writer)
    case ReleaseWrite => LockState(s.readers, false)
  }

  /** The record after a sequence of steps. */
  function ApplyAll(s: LockState, ops: seq<LockOp>): LockState
    decreases |ops|
  {
    if ops == [] then s else ApplyAll(Apply(s, ops[0]), ops[1..])
  }

  /** One guarded step keeps readers and writer apart. */
  lemma ApplyKeepsExclusive(s: LockState, op: LockOp)
    requires s.Exclusive()
    ensures Apply(s, op).Exclusive()
  {
  }

  /** Starting from a fresh record, or any exclusive one, no sequence of
      guarded acquires and releases ever has a writer and a reader at once. */
  lemma {:induction false} ApplyAllKeepsExclusive(s: LockState, ops: seq<LockOp>)
    requires s.Exclusive()
    ensures ApplyAll(s, ops).Exclusive()
    decreases |ops|
  {
    if ops != [] {
      ApplyKeepsExclusive(s, ops[0]);
      ApplyAllKeepsExclusive(Apply(s, ops[0]), ops[1..]);
    }
  }

  /** A guarded acquire succeeds exactly when its check holds: a read when
      no writer holds the record, a write when nobody does. */
  lemma TryOutcome(s: LockState)
    ensures Apply(s, TryRead) != s <==> s.CanRead()
    ensures Apply(s, TryWrite) != s <==> s.CanWrite()
    ensures s.CanWrite() ==> s.CanRead()
  {
  }
}
