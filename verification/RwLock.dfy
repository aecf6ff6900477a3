/** The process-shared pthread_rwlock_t as the engine relies on it: any number of readers, or one writer. */
module RwLock {
  // The lock keeps counts, not owners: unlocking releases whichever kind of hold there is.
  datatype Lock = Lock(readers: nat, writer: bool)

  const FREE := Lock(0, false)

  predicate MayRead(l: Lock) {
    !l.writer
  }

  predicate MayWrite(l: Lock) {
    !l.writer && l.readers == 0
  }

  function AcquireRead(l: Lock): Lock {
    l.(readers := l.readers + 1)
  }

  function AcquireWrite(l: Lock): Lock {
    l.(writer := true)
  }

  function Release(l: Lock): Lock {
    if l.writer then l.(writer := false)
    else if l.readers > 0 then l.(readers := l.readers - 1)
    else l
  }
}
