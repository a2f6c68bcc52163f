/** The lock file code of one process, updating its counts in place. Each method is what a thread does
    between two points where it may have to wait, and does to the process what the step of the same
    name in GenerationLock does. */
module GenerationLockFile {
  import opened GenerationLock

  /** The page of the lock file that all processes map; its first word is the generation. */
  class MappedPage {
    var generation: int

    constructor ()
      ensures generation == 0
    {
      generation := 0;
    }
  }

  class LockFileInfo {
    const page: MappedPage
    var os: OsLock
    var readlockCount: nat
    var writelockCount: nat
    var writeWaiting: bool
    var generation: int
    ghost var proc: Proc

    ghost predicate Valid()
      reads this
    {
      && os == proc.os && readlockCount == proc.readCount && writelockCount == proc.writeCount
      && writeWaiting == proc.waiting && generation == proc.generation
    }

    /** Sets up the lock file; whoever creates it writes generation 0 to the page and holds the write lock
        until its environment is made. */
    constructor (page: MappedPage, created: bool, ghost t: Tid)
      modifies page
      ensures Valid() && this.page == page && SetUp(proc, page.generation, created)
      ensures page.generation == if created then 0 else old(page.generation)
    {
      this.page := page;
      os := if created then Exclusive else Unlocked;
      readlockCount := 0;
      writelockCount := if created then 1 else 0;
      writeWaiting := false;
      generation := if created then 0 else page.generation;
      proc := Proc(if created then Exclusive else Unlocked, 0, if created then 1 else 0, false,
                   if created then 0 else page.generation,
                   {}, {}, {}, {}, {}, if created then {t} else {}, if created then {t} else {}, false);
      new;
      if created {
        page.generation := 0;
      }
    }

    /** Enters a read request; mustLock says that the thread goes on to lock the file, keeping the mutex. */
    method BeginRead(ghost t: Tid, dontReopen: bool) returns (mustLock: bool)
      requires Valid() && MutexFree(proc) && !Known(proc, t)
      modifies this
      ensures Valid() && proc == AskedRead(old(proc), t, dontReopen)
      ensures mustLock <==> t in proc.readBlocked
    {
      readlockCount := readlockCount + 1;
      mustLock := readlockCount == 1 && writelockCount == 0;
      proc := AskedRead(proc, t, dontReopen);
    }

    /** The file has been locked for reading. */
    method FinishRead(ghost t: Tid, dontReopen: bool) returns (reopened: bool)
      requires Valid() && t in proc.readBlocked && (dontReopen <==> t in proc.quiet)
      modifies this
      ensures Valid() && proc == GrantedRead(page.generation, old(proc), t)
      ensures reopened <==> Reopens(page.generation, old(proc), t)
    {
      os := Shared;
      var curGen := page.generation;
      reopened := curGen != generation && !dontReopen;
      generation := curGen;
      proc := GrantedRead(page.generation, proc, t);
    }

    /** Enters a write request; mustLock says that the thread goes on to lock the file, and reacquire
        that it gives up the mutex to do so. */
    method BeginWrite(ghost t: Tid, dontReopen: bool) returns (mustLock: bool, reacquire: bool)
      requires Valid() && MutexFree(proc) && !Known(proc, t)
      modifies this
      ensures Valid() && proc == AskedWrite(old(proc), t, dontReopen)
      ensures mustLock <==> t in proc.heldWait + proc.freeWait
      ensures reacquire <==> t in proc.freeWait
    {
      writelockCount := writelockCount + 1;
      mustLock := writelockCount == 1 || writeWaiting;
      reacquire := mustLock && readlockCount != 0;
      if mustLock {
        writeWaiting := true;
      }
      proc := AskedWrite(proc, t, dontReopen);
    }

    /** A thread that gave up the mutex has locked the file. */
    method LockedFile(ghost t: Tid)
      requires Valid() && t in proc.freeWait
      modifies this
      ensures Valid() && proc == GotFile(old(proc), t)
    {
      os := Exclusive;
      proc := GotFile(proc, t);
    }

    /** The thread has the file locked for writing and the mutex. */
    method FinishWrite(ghost t: Tid, dontReopen: bool) returns (reopened: bool)
      requires Valid() && (t in proc.heldWait || (t in proc.got && proc.os == Exclusive))
      requires dontReopen <==> t in proc.quiet
      modifies this, page
      ensures Valid() && proc == GrantedWrite(old(page.generation), old(proc), t)
      ensures page.generation == old(page.generation) + 1
      ensures reopened <==> Reopens(old(page.generation), old(proc), t)
    {
      os := Exclusive;
      writeWaiting := false;
      var curGen := page.generation;
      proc := GrantedWrite(curGen, proc, t);
      page.generation := curGen + 1;
      reopened := curGen != generation && !dontReopen;
      generation := curGen + 1;
    }

    method Unlock(ghost t: Tid, isWrite: bool)
      requires Valid() && MutexFree(proc) && Counted(proc)
      requires if isWrite then t in proc.hasWrite else t in proc.hasRead
      modifies this
      ensures Valid() && proc == if isWrite then UnlockedWrite(old(proc), t) else UnlockedRead(old(proc), t)
    {
      CountFacts(proc);
      if isWrite {
        writelockCount := writelockCount - 1;
        proc := UnlockedWrite(proc, t);
      } else {
        readlockCount := readlockCount - 1;
        proc := UnlockedRead(proc, t);
      }
      if writelockCount == 0 {
        if readlockCount == 0 {
          os := Unlocked;
        } else {
          os := Shared;
        }
      }
    }
  }
}
