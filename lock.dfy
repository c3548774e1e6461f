/**
 * The single-instance lock file `.sync.lock` (main.py:68-114): `acquire_lock`
 * honours a lock younger than 24 hours, clears a stale or unreadable one, and
 * writes a fresh timestamp; `release_lock` removes it.
 */
module Lock {
  import opened Wrappers

  /** Seconds after which a lock is presumed abandoned (main.py:79). */
  const StaleAfterSeconds := 86400

  /** What `.sync.lock` holds: a parsable timestamp, or something `json.load`/`fromisoformat` reject. */
  datatype LockData = Stamped(time: int) | Unreadable

  /** A readable lock that is at most a day old (the age test is a strict `>`). */
  predicate Blocks(lock: Option<LockData>, now: int) {
    lock.Some? && lock.value.Stamped? && now - lock.value.time <= StaleAfterSeconds
  }

  class LockFile {
    /** `None` when `.sync.lock` does not exist. */
    var content: Option<LockData>

    /** No `.sync.lock` yet. */
    constructor()
      ensures content == None
    {
      content := None;
    }

    /**
     * `acquire_lock`.  `writable` says whether creating the lock file succeeds
     * (the `except` at main.py:102-104).  A live lock is left untouched and
     * refuses; otherwise any old lock is removed and, if the write succeeds, a
     * lock stamped `now` is in place.
     */
    method AcquireLock(now: int, writable: bool) returns (acquired: bool)
      modifies this
      ensures acquired <==> !Blocks(old(content), now) && writable
      ensures acquired ==> content == Some(Stamped(now))
      ensures Blocks(old(content), now) ==> content == old(content)
      ensures !acquired && !Blocks(old(content), now) ==> content == None
    {
      if content.Some? {
        match content.value
        case Stamped(t) =>
          if now - t > StaleAfterSeconds {
            content := None;
          } else {
            return false;
          }
        case Unreadable =>
          content := None;
      }
      if !writable {
        return false;
      }
      content := Some(Stamped(now));
      return true;
    }

    /** `release_lock`: afterwards there is no lock file. */
    method ReleaseLock()
      modifies this
      ensures content == None
    {
      if content.Some? {
        content := None;
      }
    }
  }

  /** A lock taken at `t` turns away every acquisition during the following 24 hours (inclusive). */
  lemma FreshLockExcludes(t: int, now: int)
    requires t <= now <= t + StaleAfterSeconds
    ensures Blocks(Some(Stamped(t)), now)
  {
  }

  /** A lock older than 24 hours, or one that cannot be read, never turns an acquisition away. */
  lemma StaleOrUnreadableNeverBlocks(lock: LockData, now: int)
    requires lock.Unreadable? || now - lock.time > StaleAfterSeconds
    ensures !Blocks(Some(lock), now)
  {
  }
}
