/** The lock manager of the line-based version: one reentrant read/write
    lock per path, created on first use and never removed.  Only the
    outcome of each call is modelled: an acquire that would wait for
    another thread is reported as blocked. */
module RwLocks {
  import opened Failures

  /** A thread, which is one client connection in the server. */
  type Owner = nat

  /** A ReentrantReadWriteLock: the read holds of each thread (a thread
      may hold several) and the writing thread with its hold count. */
  datatype RwLock = RwLock(readers: multiset<Owner>, writer: Option<Owner>, writeHolds: nat)

  const UNLOCKED: RwLock := RwLock(multiset{}, None, 0)

  /** What the lock itself guarantees: a write hold has a count, and no
      thread other than the writer holds a read lock beside it. */
  ghost predicate Coherent(k: RwLock) {
    (k.writer.None? <==> k.writeHolds == 0) &&
    (k.writer.Some? ==> forall o | o in k.readers :: o == k.writer.value)
  }

  /** readLock().lock(): granted unless another thread writes. */
  function GrantRead(k: RwLock, o: Owner): (r: Option<RwLock>)
    ensures r.None? <==> k.writer.Some? && k.writer.value != o
    ensures r.Some? ==> r.value == k.(readers := k.readers + multiset{o})
  {
    if k.writer.None? || k.writer == Some(o) then Some(k.(readers := k.readers + multiset{o})) else None
  }

  /** writeLock().lock(): reentrant for the writer; otherwise granted only
      when nobody holds the lock, so a thread holding only a read lock
      waits for itself. */
  function GrantWrite(k: RwLock, o: Owner): (r: Option<RwLock>)
    ensures r.Some? <==> k.writer == Some(o) || (k.writer.None? && k.readers == multiset{})
    ensures r.Some? ==> r.value.writer == Some(o) && r.value.readers == k.readers
  {
    if k.writer == Some(o) then Some(k.(writeHolds := k.writeHolds + 1))
    else if k.writer.None? && k.readers == multiset{} then Some(RwLock(k.readers, Some(o), 1))
    else None
  }

  /** readLock().unlock(): one read hold of the thread goes; without one
      it is an IllegalMonitorStateException. */
  function DropRead(k: RwLock, o: Owner): (r: Result<RwLock>)
    ensures r.Ok? <==> o in k.readers
    ensures r.Ok? ==> r.value == k.(readers := k.readers - multiset{o})
    ensures r.Err? ==> r.error == IllegalMonitorState
  {
    if o in k.readers then Ok(k.(readers := k.readers - multiset{o})) else Err(IllegalMonitorState)
  }

  /** writeLock().unlock(): one write hold of the writer goes; anybody
      else gets an IllegalMonitorStateException. */
  function DropWrite(k: RwLock, o: Owner): (r: Result<RwLock>)
    ensures r.Ok? <==> k.writer == Some(o)
    ensures r.Ok? && k.writeHolds > 1 ==> r.value == k.(writeHolds := k.writeHolds - 1)
    ensures r.Ok? && k.writeHolds <= 1 ==> r.value == RwLock(k.readers, None, 0)
    ensures r.Err? ==> r.error == IllegalMonitorState
  {
    if k.writer != Some(o) then Err(IllegalMonitorState)
    else if k.writeHolds > 1 then Ok(k.(writeHolds := k.writeHolds - 1))
    else Ok(RwLock(k.readers, None, 0))
  }

  /** The table of locks. */
  type LockTable = map<string, RwLock>

  /** lockFor: the path's lock, a new one when there is none yet. */
  function LockOf(t: LockTable, path: string): RwLock {
    if path in t then t[path] else UNLOCKED
  }

  ghost predicate AllCoherent(t: LockTable) {
    forall p | p in t :: Coherent(t[p])
  }

  class LockManager {
    var table: LockTable

    constructor ()
      ensures table == map[]
    {
      table := map[];
    }

    /** lockFor: computeIfAbsent. */
    method LockFor(path: string) returns (k: RwLock)
      modifies this
      ensures table == old(table)[path := LockOf(old(table), path)] && k == LockOf(old(table), path)
    {
      if path !in table {
        table := table[path := UNLOCKED];
      }
      k := table[path];
    }

    /** acquireRead: `false` when the calling thread would wait. */
    method AcquireRead(path: string, o: Owner) returns (granted: bool)
      modifies this
      ensures var a := GrantRead(LockOf(old(table), path), o);
        granted == a.Some? &&
        table == old(table)[path := if a.Some? then a.value else LockOf(old(table), path)]
    {
      var k := LockFor(path);
      var a := GrantRead(k, o);
      granted := a.Some?;
      if granted {
        table := table[path := a.value];
      }
    }

    /** acquireWrite: `false` when the calling thread would wait. */
    method AcquireWrite(path: string, o: Owner) returns (granted: bool)
      modifies this
      ensures var a := GrantWrite(LockOf(old(table), path), o);
        granted == a.Some? &&
        table == old(table)[path := if a.Some? then a.value else LockOf(old(table), path)]
    {
      var k := LockFor(path);
      var a := GrantWrite(k, o);
      granted := a.Some?;
      if granted {
        table := table[path := a.value];
      }
    }

    method ReleaseRead(path: string, o: Owner) returns (r: Result<()>)
      modifies this
      ensures var u := DropRead(LockOf(old(table), path), o);
        (r.Ok? <==> u.Ok?) && (r.Err? ==> r.error == u.error) &&
        table == old(table)[path := if u.Ok? then u.value else LockOf(old(table), path)]
    {
      var k := LockFor(path);
      var u := DropRead(k, o);
      if u.Err? {
        return Err(u.error);
      }
      table := table[path := u.value];
      r := Ok(());
    }

    method ReleaseWrite(path: string, o: Owner) returns (r: Result<()>)
      modifies this
      ensures var u := DropWrite(LockOf(old(table), path), o);
        (r.Ok? <==> u.Ok?) && (r.Err? ==> r.error == u.error) &&
        table == old(table)[path := if u.Ok? then u.value else LockOf(old(table), path)]
    {
      var k := LockFor(path);
      var u := DropWrite(k, o);
      if u.Err? {
        return Err(u.error);
      }
      table := table[path := u.value];
      r := Ok(());
    }
  }

  // ---------------------------------------------------------------------
  // Properties

  /** Every grant and release keeps the lock coherent: while one thread
      writes, no other thread reads. */
  lemma OperationsKeepCoherent(k: RwLock, o: Owner)
    requires Coherent(k)
    ensures GrantRead(k, o).Some? ==> Coherent(GrantRead(k, o).value)
    ensures GrantWrite(k, o).Some? ==> Coherent(GrantWrite(k, o).value)
    ensures DropRead(k, o).Ok? ==> Coherent(DropRead(k, o).value)
    ensures DropWrite(k, o).Ok? ==> Coherent(DropWrite(k, o).value)
  {
    if GrantRead(k, o).Some? && k.writer.Some? {
      var r := GrantRead(k, o).value;
      assert k.writer.value == o;
      forall p | p in r.readers ensures p == k.writer.value {
        assert p == o || p in k.readers;
      }
    }
    if DropRead(k, o).Ok? && k.writer.Some? {
      var r := DropRead(k, o).value;
      forall p | p in r.readers ensures p == k.writer.value {
        assert p in k.readers;
      }
    }
  }

  /** A release undoes the grant before it. */
  lemma ReleaseUndoesAcquire(k: RwLock, o: Owner)
    requires Coherent(k)
    ensures GrantRead(k, o).Some? ==> DropRead(GrantRead(k, o).value, o) == Ok(k)
    ensures GrantWrite(k, o).Some? ==> DropWrite(GrantWrite(k, o).value, o) == Ok(k)
  {
    if GrantRead(k, o).Some? {
      assert k.readers + multiset{o} - multiset{o} == k.readers;
    }
  }

  /** Two threads never write at once, and a writer shuts out other
      readers: a coherent lock refuses them. */
  lemma WriterExcludes(k: RwLock, o: Owner)
    requires Coherent(k) && k.writer.Some? && k.writer.value != o
    ensures GrantRead(k, o).None? && GrantWrite(k, o).None?
  {
  }

  /** A thread holding only a read lock cannot take the write lock: it
      would wait for its own read hold. */
  lemma NoUpgrade(k: RwLock, o: Owner)
    requires k.writer.None? && o in k.readers
    ensures GrantWrite(k, o).None?
  {
  }
}
