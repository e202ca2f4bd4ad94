/** The server's table of per-path lock records.  `lock` never waits: a
    request that cannot be granted returns false at once. */
module Locks {
  import opened Failures
  import opened LockInfo

  /** A lock table as a value: the record of every path that has one. */
  type Table = map<string, LockState>

  /** The modes `lock` and `unlock` know. */
  predicate IsReadMode(mode: string) {
    mode == "ro"
  }

  predicate IsWriteMode(mode: string) {
    mode == "wo" || mode == "rw"
  }

  /** The result of `lock` and the table it leaves. */
  datatype LockOutcome = LockOutcome(result: Result<bool>, table: Table)

  /** lock(path, mode): the record is created first if missing; then a read
      is granted unless a writer holds the path, a write unless anybody
      does, and any other mode is an IllegalArgumentException. */
  function LockSpec(t: Table, path: string, mode: string): (o: LockOutcome)
    ensures path in o.table
  {
    var info := if path in t then t[path] else FRESH;
    var t1 := t[path := info];
    if IsReadMode(mode) then
      if info.CanRead() then LockOutcome(Ok(true), t[path := LockState(info.readers + 1, info.writer)])
      else LockOutcome(Ok(false), t1)
    else if IsWriteMode(mode) then
      if info.CanWrite() then LockOutcome(Ok(true), t[path := LockState(info.readers, true)])
      else LockOutcome(Ok(false), t1)
    else
      LockOutcome(Err(IllegalArgument), t1)
  }

  /** unlock(path, mode): nothing happens for a path without a record;
      otherwise the matching release, and the record is dropped once
      empty.  No owner is checked. */
  function UnlockSpec(t: Table, path: string, mode: string): Table {
    if path !in t then t
    else
      var info := t[path];
      var released :=
        if IsReadMode(mode) then LockState(if info.readers > 0 then info.readers - 1 else 0, info.writer)
        else if IsWriteMode(mode) then LockState(info.readers, false)
        else info;
      if released.IsEmpty() then t - {path} else t[path := released]
  }

  /** Every record in the table keeps readers and writers apart. */
  predicate AllExclusive(t: Table) {
    forall p | p in t :: t[p].Exclusive()
  }

  /** No record in the table is empty. */
  predicate NoEmpty(t: Table) {
    forall p | p in t :: !t[p].IsEmpty()
  }

  /** LockManager. */
  class LockManager {
    var lockTable: map<string, FileLockInfo>
    /** The records the table may refer to. */
    ghost var Repr: set<FileLockInfo>
    /** The table's current value. */
    ghost var table: Table

    /** Every record of the table is in Repr, different paths have
        different records, and `table` holds their states. */
    ghost predicate Valid()
      reads this, Repr
    {
      (forall p | p in lockTable :: lockTable[p] in Repr) &&
      (forall p, q | p in lockTable && q in lockTable && p != q :: lockTable[p] != lockTable[q]) &&
      table == map p | p in lockTable :: lockTable[p].State()
    }

    constructor ()
      ensures Valid() && table == map[] && Repr == {}
    {
      lockTable := map[];
      Repr := {};
      table := map[];
    }

    /** computeIfAbsent(path, FileLockInfo::new): the record of `path`,
        created empty if there was none. */
    method Entry(path: string) returns (info: FileLockInfo)
      requires Valid()
      modifies this
      ensures Valid() && path in lockTable && lockTable[path] == info && info in Repr
      ensures info.State() == table[path]
      ensures fresh(Repr - old(Repr))
      ensures table == old(table)[path := if path in old(table) then old(table)[path] else FRESH]
    {
      if path in lockTable {
        info := lockTable[path];
        assert table == old(table)[path := info.State()];
      } else {
        info := new FileLockInfo();
        lockTable := lockTable[path := info];
        Repr := Repr + {info};
        table := table[path := FRESH];
      }
    }

    /** acquireRead or acquireWrite on the record of `path`: only that
        record changes. */
    method Acquire(path: string, info: FileLockInfo, read: bool)
      requires Valid() && path in lockTable && lockTable[path] == info
      modifies this, info
      ensures Valid() && Repr == old(Repr) && lockTable == old(lockTable)
      ensures table == old(table)[path := if read then LockState(old(info.readerCount) + 1, old(info.writer))
                                          else LockState(old(info.readerCount), true)]
    {
      if read {
        info.AcquireRead();
      } else {
        info.AcquireWrite();
      }
      table := table[path := info.State()];
    }

    /** One branch of lock: refuse at once if the record cannot be taken
        in that mode, otherwise take it. */
    method TryAcquire(path: string, info: FileLockInfo, read: bool) returns (granted: bool)
      requires Valid() && path in lockTable && lockTable[path] == info
      modifies this, info
      ensures Valid() && Repr == old(Repr) && lockTable == old(lockTable)
      ensures granted == if read then old(info.State()).CanRead() else old(info.State()).CanWrite()
      ensures table == if !granted then old(table)
                       else old(table)[path := if read then LockState(old(info.readerCount) + 1, old(info.writer))
                                               else LockState(old(info.readerCount), true)]
    {
      if (read && !info.CanRead()) || (!read && !info.CanWrite()) {
        return false;
      }
      Acquire(path, info, read);
      return true;
    }

    /** The part of lock after the record exists: `before` is the table
        as it was when lock was called. */
    method Decide(path: string, info: FileLockInfo, mode: string, ghost before: Table) returns (r: Result<bool>)
      requires Valid() && path in lockTable && lockTable[path] == info
      requires table == before[path := if path in before then before[path] else FRESH]
      modifies this, info
      ensures Valid() && Repr == old(Repr) && lockTable == old(lockTable)
      ensures r == LockSpec(before, path, mode).result
      ensures table == LockSpec(before, path, mode).table
    {
      assert info.State() == table[path] == (if path in before then before[path] else FRESH);
      if IsReadMode(mode) {
        var granted := TryAcquire(path, info, true);
        r := Ok(granted);
      } else if IsWriteMode(mode) {
        var granted := TryAcquire(path, info, false);
        r := Ok(granted);
      } else {
        r := Err(IllegalArgument);
      }
    }

    /** lock. */
    method Lock(path: string, mode: string) returns (r: Result<bool>)
      requires Valid()
      modifies this, Repr
      ensures Valid() && fresh(Repr - old(Repr))
      ensures r == LockSpec(old(table), path, mode).result
      ensures table == LockSpec(old(table), path, mode).table
    {
      ghost var before := table;
      var info := Entry(path);
      r := Decide(path, info, mode, before);
    }

    /** releaseRead or releaseWrite on the record of `path`, as `mode`
        says: only that record changes. */
    method Release(path: string, info: FileLockInfo, mode: string)
      requires Valid() && path in lockTable && lockTable[path] == info
      modifies this, info
      ensures Valid() && Repr == old(Repr) && lockTable == old(lockTable)
      ensures table == old(table)[path := info.State()]
      ensures info.State() ==
        if IsReadMode(mode) then LockState(if old(info.readerCount) > 0 then old(info.readerCount) - 1 else 0, old(info.writer))
        else if IsWriteMode(mode) then LockState(old(info.readerCount), false)
        else old(info.State())
    {
      if IsReadMode(mode) {
        info.ReleaseRead();
      } else if IsWriteMode(mode) {
        info.ReleaseWrite();
      }
      table := table[path := info.State()];
    }

    /** unlock. */
    method Unlock(path: string, mode: string)
      requires Valid()
      modifies this, Repr
      ensures Valid() && Repr == old(Repr)
      ensures table == UnlockSpec(old(table), path, mode)
    {
      if path !in lockTable {
        return;
      }
      var info := lockTable[path];
      Release(path, info, mode);
      if info.readerCount == 0 && !info.writer {
        lockTable := lockTable - {path};
        table := table - {path};
      }
    }
  }

  // ---------------------------------------------------------------------
  // Properties

  /** lock only ever touches the `path` key. */
  lemma LockTouchesOnlyPath(t: Table, path: string, mode: string, q: string)
    requires q != path
    ensures q in LockSpec(t, path, mode).table <==> q in t
    ensures q in t ==> LockSpec(t, path, mode).table[q] == t[q]
  {
  }

  /** unlock only ever touches the `path` key. */
  lemma UnlockTouchesOnlyPath(t: Table, path: string, mode: string, q: string)
    requires q != path
    ensures q in UnlockSpec(t, path, mode) <==> q in t
    ensures q in t ==> UnlockSpec(t, path, mode)[q] == t[q]
  {
  }

  /** A read lock is granted iff no writer holds the path; granting adds
      one reader, refusing leaves the record (created if need be) as it was. */
  lemma LockRead(t: Table, path: string)
    ensures var o := LockSpec(t, path, "ro"); var info := if path in t then t[path] else FRESH;
      (o.result == Ok(true) <==> !info.writer) &&
      (o.result == Ok(true) ==> o.table[path] == LockState(info.readers + 1, info.writer)) &&
      (o.result == Ok(false) ==> o.table == t[path := info])
  {
  }

  /** A write lock ("wo" or "rw") is granted iff nobody holds the path;
      granting sets the writer flag, refusing changes nothing. */
  lemma LockWrite(t: Table, path: string, mode: string)
    requires IsWriteMode(mode)
    ensures var o := LockSpec(t, path, mode); var info := if path in t then t[path] else FRESH;
      (o.result == Ok(true) <==> !info.writer && info.readers == 0) &&
      (o.result == Ok(true) ==> o.table[path] == LockState(info.readers, true)) &&
      (o.result == Ok(false) ==> o.table == t[path := info])
  {
  }

  /** An unknown mode throws, and leaves behind the empty record that was
      created for a path that had none. */
  lemma LockUnknownMode(t: Table, path: string, mode: string)
    requires !IsReadMode(mode) && !IsWriteMode(mode)
    ensures LockSpec(t, path, mode).result == Err(IllegalArgument)
    ensures path !in t ==> LockSpec(t, path, mode).table == t[path := FRESH]
    ensures path in t ==> LockSpec(t, path, mode).table == t
  {
  }

  /** unlock of a path without a record changes nothing; a write-mode unlock
      clears the writer flag whoever set it; an unknown mode changes no
      count; the record is gone exactly when it ends up empty. */
  lemma UnlockEffect(t: Table, path: string, mode: string)
    ensures path !in t ==> UnlockSpec(t, path, mode) == t
    ensures var u := UnlockSpec(t, path, mode);
      path in u ==> !u[path].IsEmpty() && path in t
    ensures var u := UnlockSpec(t, path, mode);
      path in t && IsWriteMode(mode) ==> path !in u || (!u[path].writer && u[path].readers == t[path].readers)
    ensures var u := UnlockSpec(t, path, mode);
      path in t && !IsReadMode(mode) && !IsWriteMode(mode) ==>
        (if t[path].IsEmpty() then path !in u else u[path] == t[path])
  {
  }

  /** lock keeps every record exclusive. */
  lemma LockKeepsExclusive(t: Table, path: string, mode: string)
    requires AllExclusive(t)
    ensures AllExclusive(LockSpec(t, path, mode).table)
  {
    var o := LockSpec(t, path, mode);
    forall p | p in o.table
      ensures o.table[p].Exclusive()
    {
      if p != path {
        LockTouchesOnlyPath(t, path, mode, p);
      }
    }
  }

  /** unlock keeps every record exclusive. */
  lemma UnlockKeepsExclusive(t: Table, path: string, mode: string)
    requires AllExclusive(t)
    ensures AllExclusive(UnlockSpec(t, path, mode))
  {
    var u := UnlockSpec(t, path, mode);
    forall p | p in u
      ensures u[p].Exclusive()
    {
      if p != path {
        UnlockTouchesOnlyPath(t, path, mode, p);
      }
    }
  }

  /** With a known mode, lock leaves no empty record behind (a refused
      request finds the path held); unlock never does.  Only an unknown
      mode leaves an empty record. */
  lemma NoEmptyKept(t: Table, path: string, mode: string)
    requires NoEmpty(t)
    ensures IsReadMode(mode) || IsWriteMode(mode) ==> NoEmpty(LockSpec(t, path, mode).table)
    ensures NoEmpty(UnlockSpec(t, path, mode))
    ensures path !in t && !IsReadMode(mode) && !IsWriteMode(mode) ==>
      !NoEmpty(LockSpec(t, path, mode).table)
  {
    var o := LockSpec(t, path, mode);
    var u := UnlockSpec(t, path, mode);
    forall p | p in o.table && p != path
      ensures !o.table[p].IsEmpty()
    {
      LockTouchesOnlyPath(t, path, mode, p);
    }
    forall p | p in u && p != path
      ensures !u[p].IsEmpty()
    {
      UnlockTouchesOnlyPath(t, path, mode, p);
    }
  }
}
