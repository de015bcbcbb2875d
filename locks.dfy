/**
 * The process-wide remount lock, a `threading.Lock` shared by the mount
 * supervisor and every caller of the remount routine, so that two remounts
 * never run at once. Only its state (held or free) is modelled: the program
 * is sequential here, and a blocking acquire stands for waiting until the
 * current holder has released the lock and then taking it.
 */
module Locks {

  class RemountLock {
    var held: bool

    /** A fresh lock is free. */
    constructor()
      ensures !held
    {
      held := false;
    }

    /** `acquire(blocking=False)`: takes the lock if it is free and reports whether it did. */
    method TryAcquire() returns (acquired: bool)
      modifies this
      ensures acquired == !old(held)
      ensures held
    {
      acquired := !held;
      held := true;
    }

    /** `acquire(blocking=True)`: after waiting for the holder, if any, the caller holds the lock. */
    method Acquire()
      modifies this
      ensures held
    {
      held := true;
    }

    /** `release()`: only a held lock can be released. */
    method Release()
      requires held
      modifies this
      ensures !held
    {
      held := false;
    }
  }
}
